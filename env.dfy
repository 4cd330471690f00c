/** Environments (`lenv` in src/parser-util.c). A frame is the parallel
    `syms` / `vals` arrays of one lenv; a chain is the list of frames reached
    by following `par` links, innermost first and root last. These pure
    functions are what the evaluator uses; module EnvStruct keeps the C
    struct's shape and its in-place updates and is proved against them. */
module Env {
  import opened Util
  import opened Values

  type Chain = seq<Frame>

  /** The names bound in a frame, in slot order. */
  function Syms(f: Frame): (r: seq<string>)
    ensures |r| == |f| && forall i :: 0 <= i < |f| ==> r[i] == f[i].sym
  {
    if f == [] then [] else [f[0].sym] + Syms(f[1..])
  }

  /** The search loop of `lenv_get` / `lenv_put`: the first slot at or after
      `i` whose name is `k`. */
  function IndexFrom(f: Frame, k: string, i: nat): (r: Option<nat>)
    requires i <= |f|
    ensures r.Some? ==> i <= r.value < |f| && f[r.value].sym == k &&
                        forall j :: i <= j < r.value ==> f[j].sym != k
    ensures r.None? ==> forall j :: i <= j < |f| ==> f[j].sym != k
    decreases |f| - i
  {
    if i == |f| then None
    else if f[i].sym == k then Some(i)
    else IndexFrom(f, k, i + 1)
  }

  /** The first slot of `f` that binds `k`, if any. */
  function IndexOf(f: Frame, k: string): Option<nat> {
    IndexFrom(f, k, 0)
  }

  predicate Holds(f: Frame, k: string) {
    exists j :: 0 <= j < |f| && f[j].sym == k
  }

  /** `lenv_get`: a copy of the value bound to `k` in the innermost frame that
      binds it; `Unbound symbol '<k>'` once the root has been searched. */
  function Get(env: Chain, k: string): Value
    requires |env| > 0
  {
    match IndexOf(env[0], k)
    case Some(i) => Copy(env[0][i].val)
    case None =>
      if |env| == 1 then Err("Unbound symbol '" + k + "'")
      else Get(env[1..], k)
  }

  /** `lenv_put`: replaces the value of `k` in place when the frame already
      binds it, otherwise appends a new slot. The value stored is a copy. */
  function Put(f: Frame, k: string, v: Value): Frame {
    match IndexOf(f, k)
    case Some(i) => f[i := Binding(f[i].sym, Copy(v))]
    case None => f + [Binding(k, Copy(v))]
  }

  /** `lenv_def`: a `lenv_put` into the root frame. */
  function Def(env: Chain, k: string, v: Value): (r: Chain)
    requires |env| > 0
    ensures |r| == |env|
  {
    env[..|env| - 1] + [Put(env[|env| - 1], k, v)]
  }

  /** The value `k` has in one frame, looked up the way `lenv_get` does. */
  function Lookup(f: Frame, k: string): Option<Value> {
    match IndexOf(f, k)
    case Some(i) => Some(f[i].val)
    case None => None
  }

  /** A frame whose names are pairwise distinct. */
  predicate UniqueSyms(f: Frame) {
    forall i, j :: 0 <= i < j < |f| ==> f[i].sym != f[j].sym
  }

  // ---------------------------------------------------------------------
  // lenv_get

  /** `lenv_get` answers from the innermost frame `d` that binds `k`. */
  lemma {:induction false} GetInnermost(env: Chain, k: string, d: nat)
    requires d < |env| && Holds(env[d], k)
    requires forall j :: 0 <= j < d ==> !Holds(env[j], k)
    ensures Lookup(env[d], k).Some? && Get(env, k) == Lookup(env[d], k).value
    decreases d
  {
    if d > 0 {
      assert !Holds(env[0], k);
      GetInnermost(env[1..], k, d - 1);
    }
  }

  /** `lenv_get` reports an unbound symbol only when no frame in the chain
      binds `k`, and then it always does. */
  lemma {:induction false} GetUnbound(env: Chain, k: string)
    requires |env| > 0
    ensures (forall j :: 0 <= j < |env| ==> !Holds(env[j], k)) ==>
            Get(env, k) == Err("Unbound symbol '" + k + "'")
    decreases |env|
  {
    if |env| > 1 && forall j :: 0 <= j < |env| ==> !Holds(env[j], k) {
      assert forall j :: 0 <= j < |env| - 1 ==> env[1..][j] == env[j + 1];
      GetUnbound(env[1..], k);
    }
  }

  /** Lookup in one frame finds exactly the names the frame holds. */
  lemma LookupHolds(f: Frame, k: string)
    ensures Lookup(f, k).Some? <==> Holds(f, k)
  {
  }

  // ---------------------------------------------------------------------
  // lenv_put

  /** After `lenv_put(e, k, v)` the frame maps `k` to `v` and every other name
      to what it mapped to before. */
  lemma PutLookup(f: Frame, k: string, v: Value, k': string)
    ensures Lookup(Put(f, k, v), k) == Some(v)
    ensures k' != k ==> Lookup(Put(f, k, v), k') == Lookup(f, k')
  {
    var r := Put(f, k, v);
    match IndexOf(f, k)
    case Some(i) =>
      IndexFromSameSyms(f, r, k, 0);
      IndexFromSameSyms(f, r, k', 0);
    case None =>
      IndexFromAppend(f, Binding(k, Copy(v)), k, 0);
      IndexFromAppend(f, Binding(k, Copy(v)), k', 0);
  }

  /** The search depends on the names only. */
  lemma {:induction false} IndexFromSameSyms(f: Frame, g: Frame, k: string, i: nat)
    requires |f| == |g| && i <= |f|
    requires forall j :: 0 <= j < |f| ==> f[j].sym == g[j].sym
    ensures IndexFrom(f, k, i) == IndexFrom(g, k, i)
    decreases |f| - i
  {
    if i < |f| {
      IndexFromSameSyms(f, g, k, i + 1);
    }
  }

  /** Searching a frame with one more slot at the end. */
  lemma {:induction false} IndexFromAppend(f: Frame, b: Binding, k: string, i: nat)
    requires i <= |f|
    ensures IndexFrom(f + [b], k, i) ==
      if IndexFrom(f, k, i).Some? then IndexFrom(f, k, i)
      else if b.sym == k then Some(|f|) else None
    decreases |f| - i
  {
    if i < |f| {
      assert (f + [b])[i] == f[i];
      IndexFromAppend(f, b, k, i + 1);
    } else {
      assert (f + [b])[i] == b;
      if b.sym != k {
        assert IndexFrom(f + [b], k, i + 1) == None;
      }
    }
  }

  /** The frame grows by one slot exactly when `k` was absent (the new slot
      goes last); otherwise the value is replaced at the same index and every
      other slot is untouched. */
  lemma PutLayout(f: Frame, k: string, v: Value)
    ensures Holds(f, k) ==> |Put(f, k, v)| == |f|
    ensures !Holds(f, k) ==> Put(f, k, v) == f + [Binding(k, v)]
    ensures forall i :: 0 <= i < |f| && f[i].sym != k ==> Put(f, k, v)[i] == f[i]
    ensures forall i :: 0 <= i < |f| && f[i].sym == k && (forall j :: 0 <= j < i ==> f[j].sym != k) ==>
              Put(f, k, v)[i] == Binding(k, v)
  {
  }

  /** `lenv_put` never introduces a second slot for a name. */
  lemma PutKeepsUnique(f: Frame, k: string, v: Value)
    requires UniqueSyms(f)
    ensures UniqueSyms(Put(f, k, v))
  {
  }

  /** A run of `lenv_put`s into one frame: `ks[i]` bound to `vs[i]`, in order. */
  function PutAll(f: Frame, ks: seq<string>, vs: seq<Value>): Frame
    requires |ks| == |vs|
    decreases |ks|
  {
    if ks == [] then f else PutAll(Put(f, ks[0], vs[0]), ks[1..], vs[1..])
  }

  /** After a run of puts with distinct names, each name maps to the value at
      its position, and every name not in the run keeps its value. */
  lemma {:induction false} PutAllLookup(f: Frame, ks: seq<string>, vs: seq<Value>, k: string)
    requires |ks| == |vs|
    requires forall i, j :: 0 <= i < j < |ks| ==> ks[i] != ks[j]
    ensures forall i :: 0 <= i < |ks| ==> Lookup(PutAll(f, ks, vs), ks[i]) == Some(vs[i])
    ensures k !in ks ==> Lookup(PutAll(f, ks, vs), k) == Lookup(f, k)
    decreases |ks|
  {
    if ks != [] {
      var f1 := Put(f, ks[0], vs[0]);
      PutAllLookup(f1, ks[1..], vs[1..], k);
      PutAllLookup(f1, ks[1..], vs[1..], ks[0]);
      PutLookup(f, ks[0], vs[0], k);
      forall i | 0 <= i < |ks|
        ensures Lookup(PutAll(f, ks, vs), ks[i]) == Some(vs[i])
      {
        if i > 0 {
          assert ks[i] == ks[1..][i - 1];
        }
      }
    }
  }

  // ---------------------------------------------------------------------
  // lenv_def

  /** `lenv_def` changes only the root frame, as `lenv_put` would, whatever
      frame the search started from. */
  lemma DefWritesRoot(env: Chain, k: string, v: Value)
    requires |env| > 0
    ensures Def(env, k, v)[|env| - 1] == Put(env[|env| - 1], k, v)
    ensures forall i :: 0 <= i < |env| - 1 ==> Def(env, k, v)[i] == env[i]
  {
  }

  /** A definition is visible through every chain that shares the root, unless
      an inner frame shadows the name. */
  lemma DefThenGet(env: Chain, k: string, v: Value)
    requires |env| > 0
    requires forall j :: 0 <= j < |env| - 1 ==> !Holds(env[j], k)
    ensures Get(Def(env, k, v), k) == v
  {
    var r := Def(env, k, v);
    var n := |env| - 1;
    PutLookup(env[n], k, v, k);
    LookupHolds(r[n], k);
    GetInnermost(r, k, n);
  }
}
