/**
 * Small facts about sequences, stated for any element type so that using
 * them on sequences of strings does not make the solver compare strings
 * character by character.
 */
module Seqs {
  import opened Wrappers

  lemma TakeSnoc<T>(xs: seq<T>, i: nat)
    requires i < |xs|
    ensures xs[..i + 1] == xs[..i] + [xs[i]]
  {
  }

  lemma TakeAll<T>(xs: seq<T>)
    ensures xs[..|xs|] == xs
  {
  }

  lemma TakeTake<T>(xs: seq<T>, i: nat, j: nat)
    requires i <= j <= |xs|
    ensures xs[..j][..i] == xs[..i]
  {
  }

  lemma Snoc<T>(xs: seq<T>, x: T)
    ensures (xs + [x])[..|xs|] == xs
    ensures (xs + [x])[|xs|] == x
    ensures |xs + [x]| == |xs| + 1
  {
  }

  lemma Cons<T>(x: T, xs: seq<T>)
    ensures ([x] + xs)[0] == x
    ensures ([x] + xs)[1..] == xs
  {
  }

  /** Two sequences with the same elements at the same places are equal. */
  lemma Pointwise<T>(a: seq<T>, b: seq<T>)
    requires |a| == |b|
    requires forall i :: 0 <= i < |a| ==> a[i] == b[i]
    ensures a == b
  {
  }

  lemma Assoc<T>(a: seq<T>, b: seq<T>, c: seq<T>)
    ensures (a + b) + c == a + (b + c)
  {
  }

  /** The blocks `f(0)`, ..., `f(n - 1)` one after the other, as a loop appends them. */
  function Concat<T>(f: nat -> seq<T>, n: nat): seq<T> {
    if n == 0 then [] else Concat(f, n - 1) + f(n - 1)
  }

  /** Every element of the blocks is in one of them. */
  lemma {:induction false} ConcatFrom<T>(f: nat -> seq<T>, n: nat, x: T)
    requires x in Concat(f, n)
    ensures exists j :: 0 <= j < n && x in f(j)
  {
    if x !in f(n - 1) {
      ConcatFrom(f, n - 1, x);
    }
  }

  /** Every element of each block is among the blocks. */
  lemma {:induction false} ConcatHave<T>(f: nat -> seq<T>, n: nat, j: nat, x: T)
    requires j < n && x in f(j)
    ensures x in Concat(f, n)
  {
    if j < n - 1 {
      ConcatHave(f, n - 1, j, x);
    }
  }

  /** `[f(x) for x in xs]`, built from the last element backwards as a loop appends. */
  function Each<A, B>(xs: seq<A>, f: A -> B): seq<B> {
    if xs == [] then [] else Each(xs[..|xs| - 1], f) + [f(xs[|xs| - 1])]
  }

  lemma {:induction false} EachAt<A, B>(xs: seq<A>, f: A -> B)
    ensures |Each(xs, f)| == |xs|
    ensures forall j :: 0 <= j < |xs| ==> Each(xs, f)[j] == f(xs[j])
  {
    if xs != [] {
      var init := xs[..|xs| - 1];
      EachAt(init, f);
      assert forall j :: 0 <= j < |init| ==> init[j] == xs[j];
    }
  }

  lemma EachSnoc<A, B>(xs: seq<A>, f: A -> B, i: nat)
    requires i < |xs|
    ensures Each(xs[..i + 1], f) == Each(xs[..i], f) + [f(xs[i])]
  {
    TakeTake(xs, i, i + 1);
    assert xs[..i + 1][i] == xs[i];
  }

  /**
   * A loop that applies a step that may fail to each element in turn and
   * stops at the first failure, whose error it keeps.
   */
  function TryEach<A, B>(xs: seq<A>, f: A -> Result<B>): Result<seq<B>> {
    if xs == [] then Ok([])
    else
      var init := TryEach(xs[..|xs| - 1], f);
      var last := f(xs[|xs| - 1]);
      if init.Err? then init
      else if last.Err? then Err(last.error)
      else Ok(init.value + [last.value])
  }

  lemma TryEachSnoc<A, B>(xs: seq<A>, f: A -> Result<B>, i: nat)
    requires i < |xs| && TryEach(xs[..i], f).Ok?
    ensures f(xs[i]).Err? ==> TryEach(xs[..i + 1], f) == Err(f(xs[i]).error)
    ensures f(xs[i]).Ok? ==> TryEach(xs[..i + 1], f) == Ok(TryEach(xs[..i], f).value + [f(xs[i]).value])
  {
    TakeTake(xs, i, i + 1);
    assert xs[..i + 1][i] == xs[i];
  }

  /** Once a prefix fails, the whole loop fails with the same error. */
  lemma {:induction false} TryEachStop<A, B>(xs: seq<A>, f: A -> Result<B>, n: nat)
    requires n <= |xs| && TryEach(xs[..n], f).Err?
    ensures TryEach(xs, f) == TryEach(xs[..n], f)
  {
    if n == |xs| {
      TakeAll(xs);
    } else {
      TakeTake(xs, n, |xs| - 1);
      TryEachStop(xs[..|xs| - 1], f, n);
    }
  }

  /** The loop fails exactly when one of the steps does. */
  lemma {:induction false} TryEachFails<A, B>(xs: seq<A>, f: A -> Result<B>)
    ensures TryEach(xs, f).Err? <==> exists j :: 0 <= j < |xs| && f(xs[j]).Err?
  {
    if xs != [] {
      var init := xs[..|xs| - 1];
      TryEachFails(init, f);
      assert forall j :: 0 <= j < |init| ==> init[j] == xs[j];
    }
  }

  /** When the loop succeeds, it has one value per element, the value of its step. */
  lemma {:induction false} TryEachAt<A, B>(xs: seq<A>, f: A -> Result<B>)
    requires TryEach(xs, f).Ok?
    ensures |TryEach(xs, f).value| == |xs|
    ensures forall j :: 0 <= j < |xs| ==> f(xs[j]) == Ok(TryEach(xs, f).value[j])
  {
    if xs != [] {
      var init := xs[..|xs| - 1];
      TryEachAt(init, f);
      assert forall j :: 0 <= j < |init| ==> init[j] == xs[j];
    }
  }
}
