/** The `lenv` struct itself: parallel `syms` / `vals` arrays and a `par`
    link, updated in place by `lenv_put` and `lenv_def`. Each method is proved
    against the pure function of module Env that the evaluator uses. */
module EnvStruct {
  import opened Util
  import opened Values
  import Env

  /** Pairs the parallel arrays of an lenv into the frame they represent. */
  function Zip(syms: seq<string>, vals: seq<Value>): (f: Frame)
    requires |syms| == |vals|
    ensures |f| == |syms| && forall i :: 0 <= i < |f| ==> f[i] == Binding(syms[i], vals[i])
  {
    if syms == [] then [] else [Binding(syms[0], vals[0])] + Zip(syms[1..], vals[1..])
  }

  lemma ZipUpdate(syms: seq<string>, vals: seq<Value>, i: nat, v: Value)
    requires |syms| == |vals| && i < |syms|
    ensures Zip(syms, vals[i := v]) == Zip(syms, vals)[i := Binding(syms[i], v)]
  {
  }

  lemma ZipAppend(syms: seq<string>, vals: seq<Value>, k: string, v: Value)
    requires |syms| == |vals|
    ensures Zip(syms + [k], vals + [v]) == Zip(syms, vals) + [Binding(k, v)]
  {
  }

  /** The frames of a list of lenvs, in order. */
  ghost function FramesOf(cs: seq<Lenv>): (r: Env.Chain)
    reads set e | e in cs
    requires forall i :: 0 <= i < |cs| ==> |cs[i].syms| == |cs[i].vals|
    ensures |r| == |cs|
    ensures forall i :: 0 <= i < |cs| ==> r[i] == Zip(cs[i].syms, cs[i].vals)
  {
    if cs == [] then [] else [Zip(cs[0].syms, cs[0].vals)] + FramesOf(cs[1..])
  }

  /** An lenv: parallel `syms` / `vals` arrays and an optional parent. The
      ghost `Chain` lists this lenv and its ancestors up to the root. */
  class Lenv {
    var syms: seq<string>
    var vals: seq<Value>
    var par: Lenv?
    ghost var Chain: seq<Lenv>

    /** The arrays are parallel (the struct's `count` is their length). */
    ghost predicate FrameOk()
      reads this
    {
      |syms| == |vals|
    }

    /** Following `par` from this lenv visits exactly `Chain`, without
        repetition, and every lenv on the way has parallel arrays. */
    ghost predicate Valid()
      reads this, set e | e in Chain
    {
      && |Chain| > 0 && Chain[0] == this
      && (forall i :: 0 <= i < |Chain| ==> |Chain[i].syms| == |Chain[i].vals|)
      && (forall i :: 0 <= i < |Chain| - 1 ==> Chain[i].par == Chain[i + 1])
      && Chain[|Chain| - 1].par == null
      && (forall i, j :: 0 <= i < j < |Chain| ==> Chain[i] != Chain[j])
    }

    /** This lenv's own frame. */
    ghost function Bindings(): Frame
      reads this
      requires FrameOk()
    {
      Zip(syms, vals)
    }

    /** The chain of frames a lookup from this lenv walks through. */
    ghost function Frames(): (r: Env.Chain)
      reads this, set e | e in Chain
      requires Valid()
      ensures |r| == |Chain| && r[0] == Bindings()
    {
      FramesOf(Chain)
    }

    /** `lenv_new`: an empty frame without parent. */
    constructor ()
      ensures Valid() && Chain == [this] && Frames() == [[]]
    {
      syms, vals, par := [], [], null;
      Chain := [this];
    }

    /** `lenv_get`: scans this frame for `k`, then its parent, and so on; an
        `Unbound symbol` error once a frame without parent has been scanned. */
    method Get(k: string) returns (r: Value)
      requires Valid()
      ensures r == Env.Get(Frames(), k)
    {
      var e := this;
      ghost var d := 0;
      while true
        invariant 0 <= d < |Chain| && e == Chain[d]
        invariant Env.Get(Frames(), k) == Env.Get(Frames()[d..], k)
        decreases |Chain| - d
      {
        var i := 0;
        while i < |e.syms|
          invariant 0 <= i <= |e.syms|
          invariant forall j :: 0 <= j < i ==> e.syms[j] != k
        {
          if e.syms[i] == k {
            assert Env.IndexOf(Frames()[d..][0], k) == Some(i);
            return Values.Copy(e.vals[i]);
          }
          i := i + 1;
        }
        assert Env.IndexOf(Frames()[d..][0], k).None?;
        if e.par == null {
          assert d == |Chain| - 1;
          return Err("Unbound symbol '" + k + "'");
        }
        assert Frames()[d..][1..] == Frames()[d + 1..];
        e := e.par;
        d := d + 1;
      }
    }

    /** `lenv_put`: replaces the value of `k` in place if this frame binds it,
        otherwise appends a slot. Nothing but this frame's arrays changes. */
    method Put(k: string, v: Value)
      requires FrameOk()
      modifies this
      ensures FrameOk() && Bindings() == Env.Put(old(Bindings()), k, v)
      ensures par == old(par) && Chain == old(Chain)
    {
      var i := 0;
      while i < |syms|
        invariant 0 <= i <= |syms|
        invariant forall j :: 0 <= j < i ==> syms[j] != k
      {
        if syms[i] == k {
          assert Env.IndexOf(Bindings(), k) == Some(i);
          ZipUpdate(syms, vals, i, Values.Copy(v));
          vals := vals[i := Values.Copy(v)];
          return;
        }
        i := i + 1;
      }
      assert Env.IndexOf(Bindings(), k).None?;
      ZipAppend(syms, vals, k, Values.Copy(v));
      vals := vals + [Values.Copy(v)];
      syms := syms + [k];
    }

    /** The walk of `lenv_def` along `par` links to the lenv without a
        parent. */
    method Root() returns (e: Lenv)
      requires Valid()
      ensures e == Chain[|Chain| - 1]
    {
      e := this;
      ghost var d := 0;
      while e.par != null
        invariant 0 <= d < |Chain| && e == Chain[d]
        invariant d < |Chain| - 1 ==> e.par == Chain[d + 1]
        decreases |Chain| - d
      {
        e := e.par;
        d := d + 1;
      }
    }

    /** `lenv_def`: walks `par` links up to the root and puts `k` there. */
    method Def(k: string, v: Value)
      requires Valid()
      modifies Chain[|Chain| - 1]
      ensures Valid() && Chain == old(Chain)
      ensures Frames() == Env.Def(old(Frames()), k, v)
    {
      var e := Root();
      ghost var before := Frames();
      ghost var n := |Chain|;
      label pre:
      e.Put(k, v);
      assert Valid();
      ghost var after := Frames();
      forall i | 0 <= i < n
        ensures after[i] == Env.Def(before, k, v)[i]
      {
        assert before[i] == Zip(old@pre(Chain[i].syms), old@pre(Chain[i].vals));
        assert after[i] == Zip(Chain[i].syms, Chain[i].vals);
        if i < n - 1 {
          assert Chain[i] != e;
        }
      }
      assert after == Env.Def(before, k, v);
    }

    /** `lenv_copy`: a new lenv with copies of every name and value and the
        same parent. */
    method Copy() returns (n: Lenv)
      requires Valid()
      ensures fresh(n) && n.FrameOk() && n.Bindings() == CopyFrame(Bindings())
      ensures n.par == par && n.Chain == [n] + Chain[1..] && n.Valid()
    {
      n := new Lenv();
      var i := 0;
      var ss: seq<string> := [];
      var vs: seq<Value> := [];
      while i < |syms|
        invariant 0 <= i <= |syms|
        invariant ss == syms[..i] && vs == vals[..i]
      {
        ss := ss + [syms[i]];
        vs := vs + [Values.Copy(vals[i])];
        i := i + 1;
      }
      assert ss == syms && vs == vals;
      n.syms, n.vals, n.par := ss, vs, par;
      n.Chain := [n] + Chain[1..];
    }
  }
}
