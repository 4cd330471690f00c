# A verified model of the Lispy interpreter core

This project models the interpreter in `src/parser-util.c`, a small Lisp in
the style of "Build Your Own Lisp", and proves its contracts in Dafny.

- **Values.** An `lval` is one of the following:
  - Number
  - Error
  - Symbol
  - String
  - Function: a builtin, or a lambda with a closure frame, formals and body
  - S-Expression
  - Q-Expression

  The model covers structural equality (`lval_eq`), deep copy (`lval_copy`), rendering (`lval_print`) and the list surgery `lval_add`, `lval_pop`, `lval_take` and `lval_join`.
- **Environments.** An `lenv` is a frame of parallel `syms`/`vals` arrays with a parent link.
  - Lookup (`lenv_get`) returns a copy of the innermost binding.
  - Binding in one frame (`lenv_put`) replaces an existing slot or appends a new one.
  - Global definition (`lenv_def`) writes to the root frame.
  - `lenv_copy` makes a deep copy.
- **Evaluation.** `lval_eval` looks up Symbols, reduces S-Expressions and returns everything else unchanged. `lval_eval_sexpr` evaluates every cell, returns the first Error, unwraps singletons and calls the head. `lval_call` covers:
  - applying builtins;
  - binding arguments to formals in order, with `&` variadics;
  - partial application;
  - the "too many arguments" error;
  - evaluating a lambda's body in its frame, with the caller's environment as parent.
- **Builtins.** These are the primitives `lenv_add_builtins` registers:
  - `\`
  - `def`, `=`
  - `list`, `head`, `tail`, `eval`, `join`
  - `+`, `-`, `*`, `/`
  - `if`, `==`, `!=`, `>`, `<`, `>=`, `<=`

  The model also has the `LASSERT*` diagnostics and `ltype_name`.

The modules follow that structure:

| file | module | contents |
|---|---|---|
| `util.dfy` | `Util` | decimal rendering of integers (`%li`, `%i`) |
| `values.dfy` | `Values` | the `Value` datatype, `Eq`, `Copy`, `Print`, list surgery |
| `env.dfy` | `Env` | environment chains as `seq<Frame>`, innermost first; `Get`, `Put`, `Def` |
| `env_struct.dfy` | `EnvStruct` | the `lenv` object itself: class `Lenv` with `syms`, `vals`, `par` |
| `builtins.dfy` | `Builtins` | registration, diagnostics, every non-evaluating primitive |
| `evaluator.dfy` | `Evaluator` | `Eval`, `EvalSExpr`, `Call`, `ApplyBuiltin`, the binding loop |
| `eval_laws.dfy` | `EvalLaws` | laws of the evaluator: fuel, errors, binding, partial application, variadics, `eval`, `if` |
| `scenarios.dfy` | `Scenarios` | whole programs evaluated in any environment where every primitive is bound to its name |

For the following loops of the C code, the model has a method with the same loop. Each such method is proved equal to a pure function that states the operation's meaning, and the properties are proved about that function. The remaining loops are modelled by recursive functions (see "## Left out"). These are the pairs:

| method | loop it models | function it equals |
|---|---|---|
| `BuiltinOpLoop` | `builtin_op`, made of `CheckNumbers` and `Accumulate` | `BuiltinOp` |
| `CheckNumbers` | type-check loop of `builtin_op` | `FirstNotOfTag` |
| `Accumulate` | accumulation loop of `builtin_op` | `Fold` |
| `BuiltinJoinLoop` | loop of `builtin_join` | `BuiltinJoin` |
| `JoinLists` | loop of `lval_join` | concatenation |
| `BindLoop` | binding loops of `lval_call` | `BindArgs` |
| `EvalSExprLoop` | `lval_eval_sexpr`, made of `EvalCellsLoop` and `FirstErrorLoop` | `EvalSExpr` |
| `EvalCellsLoop` | evaluation loop of `lval_eval_sexpr` | `EvalCells` |
| `FirstErrorLoop` | error-check loop of `lval_eval_sexpr` | `FirstError` |
| `Lenv.Get`, `Lenv.Put`, `Lenv.Def` | loops over `syms`/`vals` and the `par` chain | `Env.Get`, `Env.Put`, `Env.Def` |
| `Lenv.Root` | the `par` walk of `lenv_def` | the last lenv of the chain |

The C evaluator recurses without bound, and a user lambda can loop forever. Evaluation in the model therefore carries a fuel budget, which each S-Expression uses up by one. When the budget runs out the result is `OutOfFuel`. `EvalLaws.EvalFuelMonotone` shows that more fuel never changes a result once one exists. So every `Ok` result is the one the C code computes.

Behaviours of the code worth noting, which the model follows:
- `lval_eval_sexpr` evaluates every cell before it looks for an Error. Side effects of cells after the error, such as `def`, therefore still happen.
- Lists print as `(a b)`, with no padding inside the delimiters.
- The type diagnostic of `builtin_var` always names `def`, even when it is called as `=`.
- The count diagnostic of `builtin_var` says "too many arguments for symbols" even when there are too few.

## Model

| member | source | states |
|---|---|---|
| Util.NatToString | src/parser-util.c:163 | the `%li` digits of a natural: non-empty, decimal, no leading zero, and they denote the number |
| Util.IntToString | src/parser-util.c:163 | the `%li` rendering of an integer: a `-` exactly for negatives, then the digits of its magnitude |
| Util.IntToStringRoundTrip | src/parser-util.c:163 | reading the rendering of a number back gives the same number |
| Values.TypeName | src/parser-util.c:479-490 | `ltype_name`: a non-empty name for each tag |
| Values.TypeNameInjective | src/parser-util.c:479-490 | distinct tags get distinct names, so a diagnostic identifies the type |
| Values.EqFromPairwise | src/parser-util.c:748-752 | the element loop of `lval_eq` succeeds exactly when every pair from the index on is equal |
| Values.EqListIff | src/parser-util.c:744-752 | S- and Q-Expressions are equal iff they have the same tag and count and are pairwise equal |
| Values.EqImpliesSameTag | src/parser-util.c:723 | values with different tags are never equal |
| Values.EqScalars | src/parser-util.c:727-742 | Number, Error, Symbol and String compare by payload; builtins by identity; a builtin never equals a lambda |
| Values.EqLambdaIgnoresEnv | src/parser-util.c:735-742 | lambdas that differ only in their closure frame are equal |
| Values.EqLambdaIff | src/parser-util.c:735-742 | lambdas are equal iff their formals are the same and their bodies have the same length and are pairwise equal, whatever their closure frames |
| Values.EqReflexive | src/parser-util.c:721-758 | every value is `lval_eq` to itself |
| Values.EqSymmetric | src/parser-util.c:721-758 | `lval_eq` is symmetric |
| Values.EqTransitive | src/parser-util.c:721-758 | `lval_eq` is transitive |
| Values.Copy | src/parser-util.c:341-380 | `lval_copy`: the copy is the same value, so nothing done to it reaches the original |
| Values.CopyIsEq | src/parser-util.c:341-380 | a copy is always `lval_eq` to its original |
| Values.EqImpliesSamePrint | src/parser-util.c:143-178 | `lval_eq` values print the same |
| Values.PrintDelimiters | src/parser-util.c:143-157 | a printed S-Expression is bracketed by `(` `)` and a Q-Expression by `{` `}` |
| Values.Add | src/parser-util.c:136-141 | `lval_add`: the list keeps its tag and its cells and gains `x` at the end |
| Values.Pop | src/parser-util.c:222-231 | `lval_pop`: returns cell `i`; the list keeps its tag and the cells before and after `i` |
| Values.Take | src/parser-util.c:233-237 | `lval_take`: cell `i` |
| Values.AddPopRoundTrip | src/parser-util.c:136-141 | popping the cell just added gives back both that cell and the original list |
| Values.PopKeepsElements | src/parser-util.c:222-231 | the popped cell and the remaining cells together are the original multiset of cells |
| Values.JoinLists | src/parser-util.c:325-332 | `lval_join`: the result keeps `x`'s tag and holds `x`'s cells followed by `y`'s |
| Env.GetInnermost | src/parser-util.c:392-406 | `lenv_get` answers from the innermost frame that binds the name |
| Env.GetUnbound | src/parser-util.c:401-405 | when no frame binds the name, the answer is `Unbound symbol '<name>'` |
| Env.PutLookup | src/parser-util.c:408-428 | after `lenv_put` the frame maps `k` to `v`, and every other name keeps its value |
| Env.PutLayout | src/parser-util.c:408-428 | `lenv_put` grows the frame by one slot exactly when `k` is absent; otherwise it replaces the value at the same index and no other slot changes |
| Env.PutKeepsUnique | src/parser-util.c:408-428 | `lenv_put` never creates a second slot for a name |
| Env.PutAllLookup | src/parser-util.c:612-644 | binding distinct names one after the other maps each to its value and leaves other names as they were |
| Env.DefWritesRoot | src/parser-util.c:588-593 | `lenv_def` changes only the root frame, by a `lenv_put` there |
| Env.DefThenGet | src/parser-util.c:588-593 | after `lenv_def`, looking the name up gives the value, unless an inner frame shadows it |
| EnvStruct.Lenv.constructor | src/parser-util.c:565-572 | `lenv_new`: an empty root frame |
| EnvStruct.Lenv.Get | src/parser-util.c:392-406 | the loop over `syms` and then the parent chain returns what `Env.Get` specifies for the chain |
| EnvStruct.Lenv.Put | src/parser-util.c:408-428 | the loop over `syms` leaves this frame's bindings equal to `Env.Put` of the old ones |
| EnvStruct.Lenv.Root | src/parser-util.c:590 | following `par` links ends at the last lenv of the chain, the one without a parent |
| EnvStruct.Lenv.Def | src/parser-util.c:588-593 | walking `par` to the root and putting there leaves the chain equal to `Env.Def` of the old chain |
| EnvStruct.Lenv.Copy | src/parser-util.c:574-586 | `lenv_copy`: a fresh frame with the same parent and copied bindings |
| Builtins.FirstNotOfTag | src/parser-util.c:240-243 | the argument type-check loop finds the first argument of the wrong type, and every argument before it has the right type |
| Builtins.RegistryComplete | src/parser-util.c:450-477 | every primitive is registered, under a name no other primitive has |
| Builtins.BuiltinsBound | src/parser-util.c:443-477 | after `lenv_add_builtins`, each primitive's name is bound to that primitive |
| Builtins.CDiv | src/parser-util.c:263 | C's `/`: a remainder smaller than the divisor, with the sign of the dividend |
| Builtins.BuiltinOpLoop | src/parser-util.c:239-271 | the type-check loop and the fold loop of `builtin_op` compute `BuiltinOp` |
| Builtins.CheckNumbers | src/parser-util.c:240-243 | the type-check loop returns the index of the first non-Number argument, or none |
| Builtins.Accumulate | src/parser-util.c:252-268 | the loop popping the remaining arguments into the accumulator computes `Fold`, stopping at a zero divisor |
| Builtins.OpSum | src/parser-util.c:239-271 | `+` on Numbers is their sum |
| Builtins.OpProduct | src/parser-util.c:239-271 | `*` on Numbers is their product |
| Builtins.OpDifference | src/parser-util.c:245-256 | `-` negates a single argument, and otherwise subtracts the rest from the first |
| Builtins.OpTypeError | src/parser-util.c:240-243 | a non-Number argument gives a type error naming the first such index |
| Builtins.OpDivision | src/parser-util.c:258-263 | `/` gives `Division by zero.` iff some divisor is zero |
| Builtins.FoldDivNonZero | src/parser-util.c:252-268 | with no zero divisor the fold of `/` yields a Number |
| Builtins.BuiltinList | src/parser-util.c:295-298 | `list`: a Q-Expression holding exactly the arguments |
| Builtins.HeadErrors | src/parser-util.c:273-282 | `head` gives the arity, type and `{}` errors in that order, and fails iff the argument is not one non-empty Q-Expression |
| Builtins.TailErrors | src/parser-util.c:284-293 | `tail` gives the same errors under its own name |
| Builtins.HeadTailSplit | src/parser-util.c:273-293 | `head` keeps one cell and `tail` the rest; the two put together give the argument back |
| Builtins.BuiltinJoinLoop | src/parser-util.c:309-332 | the loops of `builtin_join` and `lval_join` compute `BuiltinJoin` |
| Builtins.JoinTypeError | src/parser-util.c:310-312 | a non-Q-Expression argument gives a type error naming the first such index |
| Builtins.JoinConcatenates | src/parser-util.c:309-323 | `join` of Q-Expressions is their cells concatenated in order |
| Builtins.JoinFlattens | src/parser-util.c:309-323 | joining a join with more lists is the join of them all; a single list joins to itself |
| Builtins.BindVarsPositional | src/parser-util.c:512-522 | the binding loop of `builtin_var` binds each symbol to its value in the target frame and changes no other frame |
| Builtins.VarBinds | src/parser-util.c:492-526 | a well-formed `def`/`=` returns `()` and binds positionally: `def` in the root, `=` in the innermost frame |
| Builtins.VarErrors | src/parser-util.c:493-510 | the type error (always naming `def`), the non-symbol error naming the first non-Symbol's type, and the count error, each with its exact message and leaving the environment unchanged |
| Builtins.LambdaBuilds | src/parser-util.c:528-563 | `\` succeeds exactly on two Q-Expressions whose first holds only Symbols; it builds a lambda with those formals, that body and an empty frame |
| Builtins.OrdAnswers | src/parser-util.c:698-719 | the orderings give 1 or 0, exactly as the comparison holds, and fail iff they do not get two Numbers |
| Builtins.CmpAnswers | src/parser-util.c:760-772 | `==` gives 1 iff `lval_eq` holds and `!=` gives 1 iff it fails; they fail only on a wrong count |
| Builtins.CmpComplementary | src/parser-util.c:760-772 | `==` and `!=` always disagree, and a value equals itself |
| Builtins.IfSelects | src/parser-util.c:782-803 | `if` selects the first branch on a nonzero condition and the second on zero, whatever the unselected branch holds |
| Evaluator.FirstError | src/parser-util.c:188-191 | the error-check loop finds the lowest-index Error cell |
| Evaluator.BindLoop | src/parser-util.c:611-667 | the binding loops of `lval_call` compute `BindArgs` |
| Evaluator.Call | src/parser-util.c:603-680 | a lambda call changes only the root frame of the caller's chain |
| Evaluator.EvalSExprLoop | src/parser-util.c:183-210 | the two loops of `lval_eval_sexpr` compute `EvalSExpr` |
| Evaluator.EvalCellsLoop | src/parser-util.c:185-187 | the loop replacing each cell by its value, threading the environment, computes `EvalCells` |
| Evaluator.FirstErrorLoop | src/parser-util.c:188-191 | the error-check loop returns the index of the first Error cell, or none |
| EvalLaws.EvalFuelMonotone | src/parser-util.c:212-220 | once evaluation finishes within some fuel, more fuel gives the same result |
| EvalLaws.EvalAtoms | src/parser-util.c:212-220 | a Symbol evaluates to its binding, and every value except an S-Expression evaluates to itself, leaving the environment unchanged |
| EvalLaws.EvalCellsAtoms | src/parser-util.c:185-187 | cells without S-Expressions evaluate one by one to their atom values, leaving the environment unchanged |
| EvalLaws.EvalSExprFirstError | src/parser-util.c:183-191 | after every cell is evaluated, the lowest-index Error is the result, together with the environment all the cells left behind |
| EvalLaws.EvalSExprShort | src/parser-util.c:192-195 | `()` evaluates to itself and `(x)` to the value of `x` |
| EvalLaws.EvalSExprNotFunction | src/parser-util.c:196-205 | a head that is not a Function gives the "starts with incorrect type" error |
| EvalLaws.EvalSExprCalls | src/parser-util.c:196-209 | otherwise the head is called on the remaining values |
| EvalLaws.BindPlain | src/parser-util.c:611-644 | without `&`: too many arguments fail; otherwise the leading formals are bound in order and the rest stay unbound |
| EvalLaws.BindVariadic | src/parser-util.c:623-667 | `& x` binds `x` to a Q-Expression of the remaining arguments, empty if there are none |
| EvalLaws.BindMalformed | src/parser-util.c:623-655 | `&` not followed by exactly one formal is a format error once the binding reaches it |
| EvalLaws.CallTooMany | src/parser-util.c:614-618 | surplus arguments give `Function passed too many arguments. Got <given>, Expected <total>.` |
| EvalLaws.CallPartial | src/parser-util.c:676-679 | too few arguments return the lambda with the leading formals bound in its frame and only the unbound suffix as formals |
| EvalLaws.CallFull | src/parser-util.c:669-675 | with every formal bound, the body is evaluated in the closure frame with the caller's chain as parent, and that frame is dropped afterwards |
| EvalLaws.CallVariadic | src/parser-util.c:623-675 | a variadic lambda evaluates its body with the rest-formal bound to the surplus arguments |
| EvalLaws.CallMalformed | src/parser-util.c:626-655 | a malformed `&` gives the format error and leaves the environment unchanged |
| EvalLaws.EvalBuiltin | src/parser-util.c:300-307 | `eval` retags one Q-Expression as an S-Expression and evaluates it; otherwise it gives the arity or type error |
| EvalLaws.IfEvaluatesSelected | src/parser-util.c:782-803 | `if` evaluates only the selected branch: the result does not depend on the other |
| Scenarios.RootHasBuiltins | src/parser-util.c:450-477 | the global environment binds every primitive under its name |
| Scenarios.SumExample | src/parser-util.c:239-271 | `(+ 1 2 3)` is `6` |
| Scenarios.DivisionByZeroExample | src/parser-util.c:258-263 | `(/ 1 0)` is `Error: Division by zero.` |
| Scenarios.EqualExample | src/parser-util.c:721-772 | `(== {1 2 3} {1 2 3})` is `1` |
| Scenarios.UnequalExample | src/parser-util.c:744-752 | `(== {1 2} {1 2 3})` is `0` |
| Scenarios.HeadEmptyExample | src/parser-util.c:273-276 | `(head {})` is the `{}` error of `head` |
| Scenarios.JoinExample | src/parser-util.c:309-332 | `(join {a} {b c} {})` is `{a b c}` |
| Scenarios.DefExample | src/parser-util.c:492-526 | `(def {x} n)` is `()` and defines `x` in the root frame |
| Scenarios.DefThenLookupExample | src/parser-util.c:588-593 | after `(def {x} n)`, `x` evaluates to `n` |
| Scenarios.ErrorDoesNotStopSiblings | src/parser-util.c:183-191 | `((/ 1 0) (def {x} n))` is the division error, and `x` is still defined |
| Scenarios.LambdaExample | src/parser-util.c:603-680 | `((\ {a b} {+ a b}) x y)` is `x + y`, and the caller's environment is unchanged |
| Scenarios.PartialExample | src/parser-util.c:676-679 | `((\ {a b} {+ a b}) x)` is a lambda with `a = x` in its frame and only `b` left as a formal |
| Scenarios.CurriedExample | src/parser-util.c:669-679 | `(((\ {a b} {+ a b}) x) y)` is `x + y` |
| Scenarios.VariadicExample | src/parser-util.c:623-637 | `((\ {x & xs} {xs}) p q r)` is `{q r}` |
| Scenarios.GreaterExample | src/parser-util.c:698-719 | `(> a b)` is 1 when `a > b` and 0 otherwise |
| Scenarios.IfExample | src/parser-util.c:782-803 | `(if (> a b) {x} {...})` with `a > b` is `x`, whatever the other branch holds |
| Scenarios.LocalPutExample | src/parser-util.c:599-601 | `=` inside a lambda binds in the call's own frame, so the caller's environment is unchanged afterwards |
| Scenarios.GlobalDefExample | src/parser-util.c:595-597 | `def` inside a lambda defines the name in the global environment |
| Scenarios.EvalQuotedExample | src/parser-util.c:300-307 | `(eval {+ 1 2 3})` is `6` |

## Left out

- Reading: the mpc-driven reader (`lval_read`, `lval_read_num`, `lval_read_str`) depends on the mpc parser library, which is not part of this model. Programs are given as `Value`s.
- String escaping: `lval_print_str` calls the mpc library's `mpcf_escape`, so `Print` renders a String between quotes, unescaped.
- Memory management: `malloc`, `realloc`, `free`, `lval_del` and `lenv_del` have no counterpart, because Dafny values are immutable and copies cannot alias.
- Error buffer: `lval_err` formats into a 512-byte buffer. Messages are modelled as whole strings, without truncation.
- Integer width: Numbers are unbounded. C `long` overflow in `+`, `-`, `*`, negation and `LONG_MIN / -1` is undefined behaviour in C and is not modelled. Division truncates toward zero, as in C (`CDiv`).
- Evaluator.Eval: evaluation is bounded by fuel, and `OutOfFuel` stands for a computation that did not finish within the bound. A C evaluation that recurses forever, or overflows the C stack, has no result here.
- Values.Add, Values.Pop, Values.Take: these work on values. The in-place `realloc`/`memmove` of the `cell` array and the aliasing of the returned pointer are not modelled.
- `lval_lambda`: it stores the formals and body pointers directly. It is modelled as the pure constructor `MakeLambda`, with the formals kept as their names.
- `builtin_op` and `builtin_join` pop argument 0 without checking the count. The evaluator only calls a builtin with at least one argument, so the model requires one.
- `lval_println`, the REPL, and the loading of files and the standard library in `src/lispy.c` perform I/O and are not part of this model. Neither are `builtin_load` and `lval_read_expr`, which `src/lispy.c` calls but which are not in the sources.
- `src/parsing.c`, `src/prompt.c` and `src/compat.h` are REPL experiments and a readline shim. They are not part of this model.
- Loops modelled by recursive functions rather than methods: the symbol-check loop and the binding loop of `builtin_var` (`FirstNotOfTag`, `BindVars`), the formal-check loop of `builtin_lambda` (`FirstNotOfTag`), the deletion loop of `builtin_head` (inside `BuiltinHead`), and the element loop of `lval_eq` (`EqFrom`). They state the same results; the order of the in-place steps is not modelled.
- `src/parser-util.h` declares a stale by-value `lval`. It is not part of this model.
