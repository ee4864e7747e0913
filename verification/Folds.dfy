/** Left folds over a sequence, with and without an error that ends them. */
module Folds {
  import opened Machine

  /** Induction over a property of numbers. */
  lemma {:induction false} Induct(holds: nat -> bool, n: nat)
    requires holds(0) && forall k: nat :: holds(k) ==> holds(k + 1)
    ensures holds(n)
  {
    if n > 0 {
      Induct(holds, n - 1);
    }
  }

  function Iterate<S>(step: S -> S, start: S, n: nat): S {
    if n == 0 then start else step(Iterate(step, start, n - 1))
  }

  lemma {:induction false} IterateMore<S>(step: S -> S, start: S, m: nat, n: nat)
    ensures Iterate(step, Iterate(step, start, m), n) == Iterate(step, start, m + n)
    decreases n
  {
    if n > 0 {
      IterateMore(step, start, m, n - 1);
    }
  }

  lemma IterateFirst<S>(step: S -> S, start: S, n: nat)
    ensures Iterate(step, step(start), n) == Iterate(step, start, n + 1)
  {
    IterateMore(step, start, 1, n);
    assert Iterate(step, start, 1) == step(start);
  }

  /** The step lowers the weight, or else the countdown goes on and the weight does not rise. */
  ghost predicate CountsAt<S>(step: S -> S, near: (S, nat) -> bool, weight: S -> nat, s: S, n: nat) {
    near(s, n) ==> weight(step(s)) < weight(s) || (n > 0 && near(step(s), n - 1) && weight(step(s)) <= weight(s))
  }

  ghost predicate CountsDown<S(!new)>(step: S -> S, near: (S, nat) -> bool, weight: S -> nat) {
    forall s, n: nat :: CountsAt(step, near, weight, s, n)
  }

  /** A countdown that only a fall of the weight can end ends with one. */
  lemma {:induction false} IterateFalls<S(!new)>(step: S -> S, near: (S, nat) -> bool, weight: S -> nat, start: S,
                                                 turns: nat)
    returns (k: nat)
    requires near(start, turns) && CountsDown(step, near, weight)
    ensures k <= turns && weight(Iterate(step, start, k + 1)) < weight(start)
    decreases turns
  {
    assert CountsAt(step, near, weight, start, turns);
    if weight(step(start)) < weight(start) {
      k := 0;
      assert Iterate(step, start, 1) == step(start);
    } else {
      var later := IterateFalls(step, near, weight, step(start), turns - 1);
      IterateFirst(step, start, later + 1);
      k := later + 1;
    }
  }

  lemma {:induction false} IterateKeeps<S(!new)>(step: S -> S, holds: S -> bool, start: S, n: nat)
    requires holds(start) && forall s :: holds(s) ==> holds(step(s))
    ensures holds(Iterate(step, start, n))
  {
    if n > 0 {
      IterateKeeps(step, holds, start, n - 1);
    }
  }

  function Fold<S, T>(step: (S, T) -> S, start: S, items: seq<T>): S
    decreases |items|
  {
    if items == [] then start else step(Fold(step, start, items[..|items| - 1]), items[|items| - 1])
  }

  lemma FoldSnoc<S, T>(step: (S, T) -> S, start: S, items: seq<T>, item: T)
    ensures Fold(step, start, items + [item]) == step(Fold(step, start, items), item)
  {
    assert (items + [item])[..|items|] == items;
  }

  lemma FoldPrefix<S, T>(step: (S, T) -> S, start: S, items: seq<T>, i: nat)
    requires i < |items|
    ensures Fold(step, start, items[..i + 1]) == step(Fold(step, start, items[..i]), items[i])
  {
    assert items[..i + 1][..i] == items[..i];
  }

  lemma {:induction false} FoldConcat<S, T>(step: (S, T) -> S, start: S, a: seq<T>, b: seq<T>)
    ensures Fold(step, start, a + b) == Fold(step, Fold(step, start, a), b)
    decreases |b|
  {
    if b == [] {
      assert a + b == a;
    } else {
      var n := |b| - 1;
      FoldConcat(step, start, a, b[..n]);
      assert a + b == (a + b[..n]) + [b[n]];
      FoldSnoc(step, start, a + b[..n], b[n]);
    }
  }

  /** A log that every step extends has the log of each prefix as a prefix. */
  lemma {:induction false} FoldGrows<S(!new), T(!new), X>(step: (S, T) -> S, log: S -> seq<X>, start: S,
                                                          items: seq<T>, i: nat)
    requires i <= |items| && forall s, t :: log(s) <= log(step(s, t))
    ensures log(Fold(step, start, items[..i])) <= log(Fold(step, start, items))
    decreases |items|
  {
    if i == |items| {
      assert items[..i] == items;
    } else {
      var n := |items| - 1;
      FoldGrows(step, log, start, items[..n], i);
      assert items[..n][..i] == items[..i];
      assert log(Fold(step, start, items[..n])) <= log(Fold(step, start, items));
    }
  }

  /** `?` in a loop: the first error ends it. */
  function Chain<S, T, E>(step: (S, T) -> Result<S, E>, start: S, items: seq<T>): Result<S, E>
    decreases |items|
  {
    if items == [] then Ok(start)
    else
      match Chain(step, start, items[..|items| - 1])
      case Err(e) => Err(e)
      case Ok(s) => step(s, items[|items| - 1])
  }

  lemma {:induction false} ChainConcat<S, T, E>(step: (S, T) -> Result<S, E>, start: S, a: seq<T>, b: seq<T>)
    requires Chain(step, start, a).Ok?
    ensures Chain(step, start, a + b) == Chain(step, Chain(step, start, a).value, b)
    decreases |b|
  {
    if b == [] {
      assert a + b == a;
    } else {
      var n := |b| - 1;
      ChainConcat(step, start, a, b[..n]);
      assert (a + b)[..|a| + n] == a + b[..n];
    }
  }

  lemma {:induction false} FirstErrorEnds<S, T, E>(step: (S, T) -> Result<S, E>, start: S, items: seq<T>, i: nat)
    requires i <= |items| && Chain(step, start, items[..i]).Err?
    ensures Chain(step, start, items) == Chain(step, start, items[..i])
    decreases |items|
  {
    if i < |items| {
      var n := |items| - 1;
      assert items[..n][..i] == items[..i];
      FirstErrorEnds(step, start, items[..n], i);
    } else {
      assert items[..i] == items;
    }
  }

  /** The first `n` sequences of `batches`, one behind the other. */
  function FlattenTo<T>(batches: seq<seq<T>>, n: nat): seq<T>
    requires n <= |batches|
  {
    if n == 0 then [] else FlattenTo(batches, n - 1) + batches[n - 1]
  }

  function Flatten<T>(batches: seq<seq<T>>): seq<T> {
    FlattenTo(batches, |batches|)
  }

  lemma {:induction false} FlattenPrefix<T>(batches: seq<seq<T>>, longer: seq<seq<T>>, n: nat)
    requires batches <= longer && n <= |batches|
    ensures FlattenTo(longer, n) == FlattenTo(batches, n)
  {
    if n > 0 {
      FlattenPrefix(batches, longer, n - 1);
    }
  }

  lemma FlattenSnoc<T>(batches: seq<seq<T>>, batch: seq<T>)
    ensures Flatten(batches + [batch]) == Flatten(batches) + batch
  {
    FlattenPrefix(batches, batches + [batch], |batches|);
  }

  lemma Reassociate<T>(a: seq<T>, b: seq<T>, c: seq<T>)
    ensures (a + b) + c == a + (b + c)
  {
  }

  lemma {:induction false} FlattenConsTo<T>(batches: seq<seq<T>>, n: nat)
    requires 0 < n <= |batches|
    ensures FlattenTo(batches, n) == batches[0] + FlattenTo(batches[1..], n - 1)
  {
    if n > 1 {
      FlattenConsTo(batches, n - 1);
      Reassociate(batches[0], FlattenTo(batches[1..], n - 2), batches[n - 1]);
    }
  }

  lemma FlattenCons<T>(batches: seq<seq<T>>)
    requires batches != []
    ensures Flatten(batches) == batches[0] + Flatten(batches[1..])
  {
    FlattenConsTo(batches, |batches|);
  }
}
