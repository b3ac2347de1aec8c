/**
 * The loop shape shared by the scripts: walk a list in order, and for each
 * element either skip it, append one record, or raise (which abandons the
 * whole list). `Collect` is that loop as a function; `Hits` names the
 * positions whose element produced a record.
 */
module Seqs {
  import opened Py

  /**
   * The records produced by `f` over `s`, in order; `Raised` as soon as one
   * element raises. Defined from the back, so that a loop over a prefix
   * `s[..i]` unfolds one step at a time.
   */
  function Collect<A, B>(f: A -> Outcome<Option<B>>, s: seq<A>): Outcome<seq<B>>
    decreases |s|
  {
    if s == [] then Returned([])
    else
      var init :- Collect(f, s[..|s| - 1]);
      var last :- f(s[|s| - 1]);
      Returned(if last.Some? then init + [last.value] else init)
  }

  /** Element `a` produces a record. */
  predicate Kept<A, B>(f: A -> Outcome<Option<B>>, a: A) {
    f(a).Returned? && f(a).value.Some?
  }

  /** The positions of `s` whose element produces a record, in increasing order. */
  function Hits<A, B>(f: A -> Outcome<Option<B>>, s: seq<A>): seq<nat>
    decreases |s|
  {
    if s == [] then []
    else Hits(f, s[..|s| - 1]) + (if Kept(f, s[|s| - 1]) then [|s| - 1] else [])
  }

  predicate StrictlyIncreasing(s: seq<nat>) {
    forall i, j :: 0 <= i < j < |s| ==> s[i] < s[j]
  }

  /** One loop step: the records of `s[..i+1]` from those of `s[..i]`. */
  lemma CollectStep<A, B>(f: A -> Outcome<Option<B>>, s: seq<A>, i: nat)
    requires i < |s|
    ensures Collect(f, s[..i + 1]) ==
      (match Collect(f, s[..i])
       case Raised => Raised
       case Returned(init) =>
         match f(s[i])
         case Raised => Raised
         case Returned(last) => Returned(if last.Some? then init + [last.value] else init))
  {
    assert s[..i + 1][..i] == s[..i];
  }

  /** The whole list raises exactly when one of its elements does. */
  lemma {:induction false} CollectRaised<A, B>(f: A -> Outcome<Option<B>>, s: seq<A>)
    ensures Collect(f, s).Raised? <==> exists i :: 0 <= i < |s| && f(s[i]).Raised?
    decreases |s|
  {
    if s != [] {
      var n := |s| - 1;
      CollectRaised(f, s[..n]);
      if exists i :: 0 <= i < n && f(s[..n][i]).Raised? {
        var i :| 0 <= i < n && f(s[..n][i]).Raised?;
        assert f(s[i]).Raised?;
      }
      if exists i :: 0 <= i < |s| && f(s[i]).Raised? {
        var i :| 0 <= i < |s| && f(s[i]).Raised?;
        if i < n {
          assert f(s[..n][i]).Raised?;
        }
      }
    }
  }

  /** A raise in a prefix is a raise of the whole list. */
  lemma CollectPrefixRaised<A, B>(f: A -> Outcome<Option<B>>, s: seq<A>, i: nat)
    requires i <= |s|
    requires Collect(f, s[..i]).Raised?
    ensures Collect(f, s).Raised?
  {
    CollectRaised(f, s[..i]);
    var k :| 0 <= k < i && f(s[..i][k]).Raised?;
    assert f(s[k]).Raised?;
    CollectRaised(f, s);
  }

  /** Appending a position beyond all the others keeps a list increasing. */
  lemma AppendLarger(h: seq<nat>, n: nat)
    requires StrictlyIncreasing(h)
    requires forall k :: 0 <= k < |h| ==> h[k] < n
    ensures StrictlyIncreasing(h + [n])
    ensures forall k :: 0 <= k < |h + [n]| ==> (h + [n])[k] <= n
  {
  }

  /** `Hits` is increasing and names positions of `s` only. */
  lemma {:induction false} HitsBounds<A, B>(f: A -> Outcome<Option<B>>, s: seq<A>)
    ensures StrictlyIncreasing(Hits(f, s))
    ensures forall k :: 0 <= k < |Hits(f, s)| ==> Hits(f, s)[k] < |s|
    ensures |Hits(f, s)| <= |s|
    decreases |s|
  {
    if s != [] {
      var n := |s| - 1;
      HitsBounds(f, s[..n]);
      var h := Hits(f, s[..n]);
      if Kept(f, s[n]) {
        assert Hits(f, s) == h + [n];
        AppendLarger(h, n);
      } else {
        assert Hits(f, s) == h + [];
        assert h + [] == h;
      }
    }
  }

  /** `Hits` holds exactly the positions whose element is kept. */
  lemma {:induction false} HitsMembers<A, B>(f: A -> Outcome<Option<B>>, s: seq<A>)
    ensures forall i :: 0 <= i < |s| ==> (i in Hits(f, s) <==> Kept(f, s[i]))
    decreases |s|
  {
    if s != [] {
      var n := |s| - 1;
      HitsMembers(f, s[..n]);
      HitsBounds(f, s[..n]);
      var h := Hits(f, s[..n]);
      assert n !in h;
      forall i | 0 <= i < |s|
        ensures i in Hits(f, s) <==> Kept(f, s[i])
      {
        if i < n {
          assert s[..n][i] == s[i];
        }
      }
    }
  }

  /** `Hits` lists, in increasing order, exactly the positions whose element is kept. */
  lemma HitsSpec<A, B>(f: A -> Outcome<Option<B>>, s: seq<A>)
    ensures StrictlyIncreasing(Hits(f, s))
    ensures forall k :: 0 <= k < |Hits(f, s)| ==> Hits(f, s)[k] < |s|
    ensures forall i :: 0 <= i < |s| ==> (i in Hits(f, s) <==> Kept(f, s[i]))
    ensures |Hits(f, s)| <= |s|
  {
    HitsBounds(f, s);
    HitsMembers(f, s);
  }

  /** Record `k` of the result is what `f` produced for the `k`-th kept element. */
  lemma {:induction false} CollectHits<A, B>(f: A -> Outcome<Option<B>>, s: seq<A>)
    requires Collect(f, s).Returned?
    ensures |Collect(f, s).value| == |Hits(f, s)|
    ensures forall k :: 0 <= k < |Hits(f, s)| ==>
      Hits(f, s)[k] < |s| && f(s[Hits(f, s)[k]]) == Returned(Some(Collect(f, s).value[k]))
    decreases |s|
  {
    if s != [] {
      var n := |s| - 1;
      CollectHits(f, s[..n]);
      HitsBounds(f, s[..n]);
      var init, h := Collect(f, s[..n]).value, Hits(f, s[..n]);
      if Kept(f, s[n]) {
        var last := f(s[n]).value.value;
        assert Collect(f, s).value == init + [last];
        assert Hits(f, s) == h + [n];
        forall k | 0 <= k < |h| + 1
          ensures (h + [n])[k] < |s| && f(s[(h + [n])[k]]) == Returned(Some((init + [last])[k]))
        {
          if k < |h| {
            assert (h + [n])[k] == h[k] && (init + [last])[k] == init[k];
            assert s[..n][h[k]] == s[h[k]];
          }
        }
      } else {
        assert Collect(f, s).value == init;
        assert Hits(f, s) == h + [];
        assert h + [] == h;
        forall k | 0 <= k < |h|
          ensures h[k] < |s| && f(s[h[k]]) == Returned(Some(init[k]))
        {
          assert s[..n][h[k]] == s[h[k]];
        }
      }
    }
  }

  /** When every element produces a record, there is one record per element, in order. */
  lemma {:induction false} CollectTotal<A, B>(f: A -> Outcome<Option<B>>, s: seq<A>)
    requires forall i :: 0 <= i < |s| ==> Kept(f, s[i])
    ensures Collect(f, s).Returned?
    ensures |Collect(f, s).value| == |s|
    ensures forall i :: 0 <= i < |s| ==> f(s[i]) == Returned(Some(Collect(f, s).value[i]))
    decreases |s|
  {
    if s != [] {
      var n := |s| - 1;
      assert forall i :: 0 <= i < n ==> s[..n][i] == s[i];
      CollectTotal(f, s[..n]);
    }
  }

  /** What `Collect` promises, in one statement: an order-preserving choice of the kept elements. */
  lemma CollectSpec<A, B>(f: A -> Outcome<Option<B>>, s: seq<A>)
    requires Collect(f, s).Returned?
    ensures var r, h := Collect(f, s).value, Hits(f, s);
      && |r| == |h| <= |s|
      && StrictlyIncreasing(h)
      && (forall k :: 0 <= k < |h| ==> h[k] < |s| && f(s[h[k]]) == Returned(Some(r[k])))
      && (forall i :: 0 <= i < |s| ==> (i in h <==> Kept(f, s[i])))
  {
    HitsSpec(f, s);
    CollectHits(f, s);
  }

  /** No element occurs twice. */
  predicate Distinct<T(==)>(s: seq<T>) {
    forall i, j :: 0 <= i < j < |s| ==> s[i] != s[j]
  }

  /** `list(s)` of a Python set: its elements in some order, each once. */
  method ListOfSet<T(==)>(s: set<T>) returns (r: seq<T>)
    ensures Distinct(r)
    ensures forall x :: x in r <==> x in s
    ensures |r| == |s|
  {
    r := [];
    var rest := s;
    while rest != {}
      invariant Distinct(r)
      invariant forall x :: x in r <==> x in s && x !in rest
      invariant rest <= s
      invariant |r| + |rest| == |s|
      decreases |rest|
    {
      var x :| x in rest;
      r := r + [x];
      rest := rest - {x};
    }
  }

  // ---------------------------------------------------------------- running state

  /**
   * A loop that threads one running value through `s`, abandoning the whole
   * loop when a step raises. Defined from the back, like `Collect`.
   */
  function FoldL<S, A>(step: (S, A) -> Outcome<S>, acc: S, s: seq<A>): Outcome<S>
    decreases |s|
  {
    if s == [] then Returned(acc)
    else
      var init :- FoldL(step, acc, s[..|s| - 1]);
      step(init, s[|s| - 1])
  }

  lemma FoldStep<S, A>(step: (S, A) -> Outcome<S>, acc: S, s: seq<A>, i: nat)
    requires i < |s|
    ensures FoldL(step, acc, s[..i + 1]) ==
      (match FoldL(step, acc, s[..i])
       case Raised => Raised
       case Returned(x) => step(x, s[i]))
  {
    assert s[..i + 1][..i] == s[..i];
  }

  /** Once a prefix raises, the whole loop has raised. */
  lemma {:induction false} FoldPrefixRaised<S, A>(step: (S, A) -> Outcome<S>, acc: S, s: seq<A>, i: nat)
    requires i <= |s|
    requires FoldL(step, acc, s[..i]).Raised?
    ensures FoldL(step, acc, s).Raised?
    decreases |s| - i
  {
    if i < |s| {
      FoldStep(step, acc, s, i);
      FoldPrefixRaised(step, acc, s, i + 1);
    } else {
      assert s[..i] == s;
    }
  }

  /** A step that raises after a prefix that did not makes the whole loop raise. */
  lemma FoldStepRaised<S, A>(step: (S, A) -> Outcome<S>, acc: S, s: seq<A>, i: nat)
    requires i < |s|
    requires FoldL(step, acc, s[..i]).Returned? && step(FoldL(step, acc, s[..i]).value, s[i]).Raised?
    ensures FoldL(step, acc, s).Raised?
  {
    FoldStep(step, acc, s, i);
    FoldPrefixRaised(step, acc, s, i + 1);
  }

  /** Running over `a + b` is running over `a`, then over `b` from where `a` left off. */
  lemma {:induction false} FoldConcat<S, A>(step: (S, A) -> Outcome<S>, acc: S, a: seq<A>, b: seq<A>)
    ensures FoldL(step, acc, a + b) ==
      (match FoldL(step, acc, a)
       case Raised => Raised
       case Returned(x) => FoldL(step, x, b))
    decreases |b|
  {
    if b == [] {
      assert a + b == a;
    } else {
      var n := |b| - 1;
      FoldConcat(step, acc, a, b[..n]);
      assert (a + b)[..|a + b| - 1] == a + b[..n];
      assert (a + b)[|a + b| - 1] == b[n];
    }
  }

  // ---------------------------------------------------------------- set union

  /** One `update` of a Python set with what `f` produces. */
  function UnionWith<A, B>(f: A -> Outcome<set<B>>): (set<B>, A) -> Outcome<set<B>> {
    (acc: set<B>, a: A) =>
      match f(a)
      case Raised => Raised
      case Returned(x) => Returned(acc + x)
  }

  /** The set built by starting empty and updating it with `f(a)` for every `a` of `s`. */
  function Union<A, B>(f: A -> Outcome<set<B>>, s: seq<A>): Outcome<set<B>> {
    FoldL(UnionWith(f), {}, s)
  }

  lemma UnionStep<A, B>(f: A -> Outcome<set<B>>, s: seq<A>, i: nat)
    requires i < |s|
    ensures Union(f, s[..i + 1]) ==
      (match Union(f, s[..i])
       case Raised => Raised
       case Returned(acc) =>
         match f(s[i])
         case Raised => Raised
         case Returned(x) => Returned(acc + x))
  {
    FoldStep(UnionWith(f), {}, s, i);
  }

  /**
   * The union raises exactly when one update does, and otherwise holds
   * exactly the elements some update added.
   */
  lemma {:induction false} UnionSpec<A, B>(f: A -> Outcome<set<B>>, s: seq<A>)
    ensures Union(f, s).Raised? <==> exists i :: 0 <= i < |s| && f(s[i]).Raised?
    ensures Union(f, s).Returned? ==>
      forall x :: x in Union(f, s).value <==> exists i :: 0 <= i < |s| && x in f(s[i]).value
    decreases |s|
  {
    if s != [] {
      var n := |s| - 1;
      var init := s[..n];
      UnionSpec(f, init);
      UnionStep(f, s, n);
      assert s[..n + 1] == s;
      assert forall i :: 0 <= i < n ==> init[i] == s[i];
      if Union(f, s).Returned? {
        forall x | exists i :: 0 <= i < |s| && x in f(s[i]).value
          ensures x in Union(f, s).value
        {
          var i :| 0 <= i < |s| && x in f(s[i]).value;
          if i < n {
            assert x in f(init[i]).value;
          }
        }
      }
    }
  }

  lemma UnionPrefixRaised<A, B>(f: A -> Outcome<set<B>>, s: seq<A>, i: nat)
    requires i <= |s|
    requires Union(f, s[..i]).Raised?
    ensures Union(f, s).Raised?
  {
    FoldPrefixRaised(UnionWith(f), {}, s, i);
  }
}
