/** The standard library's stable sort, as an insertion sort over a strict weak order. */
module StableSort {

  /** `lt` is asymmetric and incomparability is transitive. */
  ghost predicate StrictWeak<T(!new)>(lt: (T, T) -> bool) {
    && (forall x, y :: lt(x, y) ==> !lt(y, x))
    && (forall x, y, z :: !lt(x, y) && !lt(y, z) ==> !lt(x, z))
  }

  ghost predicate Sorted<T>(lt: (T, T) -> bool, s: seq<T>) {
    forall i, j :: 0 <= i < j < |s| ==> !lt(s[j], s[i])
  }

  /** Behind every element that is not greater. */
  function Insert<T>(lt: (T, T) -> bool, x: T, s: seq<T>): seq<T> {
    if s == [] then [x]
    else if lt(x, s[0]) then [x] + s
    else [s[0]] + Insert(lt, x, s[1..])
  }

  function Sort<T>(lt: (T, T) -> bool, s: seq<T>): seq<T>
    decreases |s|
  {
    if s == [] then [] else Insert(lt, s[|s| - 1], Sort(lt, s[..|s| - 1]))
  }

  function Filter<T>(keep: T -> bool, s: seq<T>): seq<T>
    decreases |s|
  {
    if s == [] then [] else Filter(keep, s[..|s| - 1]) + if keep(s[|s| - 1]) then [s[|s| - 1]] else []
  }

  lemma FilterSnoc<T>(keep: T -> bool, s: seq<T>, x: T)
    ensures Filter(keep, s + [x]) == Filter(keep, s) + if keep(x) then [x] else []
  {
    assert (s + [x])[..|s|] == s;
  }

  lemma {:induction false} FilterConcat<T>(keep: T -> bool, a: seq<T>, b: seq<T>)
    ensures Filter(keep, a + b) == Filter(keep, a) + Filter(keep, b)
    decreases |b|
  {
    if b == [] {
      assert a + b == a;
    } else {
      var n := |b| - 1;
      FilterConcat(keep, a, b[..n]);
      FilterSnoc(keep, a + b[..n], b[n]);
      assert a + b == a + b[..n] + [b[n]];
    }
  }

  lemma {:induction false} FilterMembers<T>(keep: T -> bool, s: seq<T>)
    ensures |Filter(keep, s)| <= |s|
    ensures forall x :: x in Filter(keep, s) <==> x in s && keep(x)
    decreases |s|
  {
    if s != [] {
      var n := |s| - 1;
      FilterMembers(keep, s[..n]);
      assert s == s[..n] + [s[n]];
    }
  }

  lemma {:induction false} FilterCount<T>(keep: T -> bool, s: seq<T>, x: T)
    ensures multiset(Filter(keep, s))[x] == if keep(x) then multiset(s)[x] else 0
    decreases |s|
  {
    if s != [] {
      var n := |s| - 1;
      FilterCount(keep, s[..n], x);
      assert s == s[..n] + [s[n]];
    }
  }

  lemma FilterMiddle<T>(keep: T -> bool, front: seq<T>, x: T, back: seq<T>)
    ensures multiset(Filter(keep, front + [x] + back))
            == multiset(Filter(keep, front + back)) + if keep(x) then multiset{x} else multiset{}
  {
    FilterSnoc(keep, front, x);
    FilterConcat(keep, front + [x], back);
    FilterConcat(keep, front, back);
  }

  lemma MultisetLast<T>(s: seq<T>)
    requires s != []
    ensures multiset(s) == multiset(s[..|s| - 1]) + multiset{s[|s| - 1]}
  {
    assert s == s[..|s| - 1] + [s[|s| - 1]];
  }

  lemma SplitAround<T>(s: seq<T>, x: T) returns (front: seq<T>, back: seq<T>)
    requires x in s
    ensures s == front + [x] + back
    ensures multiset(front + back) + multiset{x} == multiset(s)
  {
    var i :| 0 <= i < |s| && s[i] == x;
    front, back := s[..i], s[i + 1..];
  }

  lemma MultisetCancel<T>(a: multiset<T>, b: multiset<T>, x: T)
    requires a + multiset{x} == b + multiset{x}
    ensures a == b
  {
    assert a == (a + multiset{x}) - multiset{x} == b;
  }

  lemma {:induction false} FilterPermutation<T>(keep: T -> bool, a: seq<T>, b: seq<T>)
    requires multiset(a) == multiset(b)
    ensures multiset(Filter(keep, a)) == multiset(Filter(keep, b))
    decreases |a|
  {
    if a == [] {
      assert b == [] by { assert |multiset(a)| == |multiset(b)|; }
    } else {
      var n := |a| - 1;
      MultisetLast(a);
      assert a[n] in multiset(b);
      var front, back := SplitAround(b, a[n]);
      MultisetCancel(multiset(a[..n]), multiset(front + back), a[n]);
      FilterPermutation(keep, a[..n], front + back);
      FilterMiddle(keep, front, a[n], back);
    }
  }

  lemma {:induction false} FilterAll<T>(keep: T -> bool, s: seq<T>)
    requires forall i :: 0 <= i < |s| ==> keep(s[i])
    ensures Filter(keep, s) == s
    decreases |s|
  {
    if s != [] {
      FilterAll(keep, s[..|s| - 1]);
      assert s == s[..|s| - 1] + [s[|s| - 1]];
    }
  }

  /** Filtering by a weaker predicate first changes nothing. */
  lemma {:induction false} FilterTwice<T>(keep: T -> bool, weaker: T -> bool, s: seq<T>)
    requires forall i :: 0 <= i < |s| && keep(s[i]) ==> weaker(s[i])
    ensures Filter(keep, Filter(weaker, s)) == Filter(keep, s)
    decreases |s|
  {
    if s != [] {
      var n := |s| - 1;
      FilterTwice(keep, weaker, s[..n]);
      if weaker(s[n]) {
        FilterSnoc(keep, Filter(weaker, s[..n]), s[n]);
      } else {
        assert Filter(weaker, s[..n]) + [] == Filter(weaker, s[..n]);
      }
    }
  }

  lemma {:induction false} InsertIsPermutation<T>(lt: (T, T) -> bool, x: T, s: seq<T>)
    ensures multiset(Insert(lt, x, s)) == multiset(s) + multiset{x}
  {
    if s != [] {
      assert s == [s[0]] + s[1..];
      if !lt(x, s[0]) { InsertIsPermutation(lt, x, s[1..]); }
    }
  }

  lemma {:induction false} SortIsPermutation<T>(lt: (T, T) -> bool, s: seq<T>)
    ensures multiset(Sort(lt, s)) == multiset(s)
    ensures |Sort(lt, s)| == |s|
    decreases |s|
  {
    if s != [] {
      var n := |s| - 1;
      SortIsPermutation(lt, s[..n]);
      InsertIsPermutation(lt, s[n], Sort(lt, s[..n]));
      assert s == s[..n] + [s[n]];
    }
    assert |multiset(Sort(lt, s))| == |multiset(s)|;
  }

  lemma SortSnoc<T>(lt: (T, T) -> bool, s: seq<T>, x: T)
    ensures Sort(lt, s + [x]) == Insert(lt, x, Sort(lt, s))
  {
    assert (s + [x])[..|s|] == s;
  }

  lemma LessThanNotLess<T(!new)>(lt: (T, T) -> bool, x: T, y: T, z: T)
    requires StrictWeak(lt) && lt(x, y) && !lt(z, y)
    ensures lt(x, z)
  {
  }

  lemma {:induction false} InsertSorted<T(!new)>(lt: (T, T) -> bool, x: T, s: seq<T>)
    requires StrictWeak(lt) && Sorted(lt, s)
    ensures Sorted(lt, Insert(lt, x, s))
  {
    if s != [] {
      if lt(x, s[0]) {
        forall j | 0 <= j < |s| ensures !lt(s[j], x) {
          LessThanNotLess(lt, x, s[0], s[j]);
        }
      } else {
        InsertSorted(lt, x, s[1..]);
        InsertIsPermutation(lt, x, s[1..]);
        var rest := Insert(lt, x, s[1..]);
        forall j | 0 <= j < |rest| ensures !lt(rest[j], s[0]) {
          assert rest[j] in multiset(rest);
          if rest[j] != x { assert rest[j] in s[1..]; }
        }
      }
    }
  }

  lemma {:induction false} SortSorted<T(!new)>(lt: (T, T) -> bool, s: seq<T>)
    requires StrictWeak(lt)
    ensures Sorted(lt, Sort(lt, s))
    decreases |s|
  {
    if s != [] {
      SortSorted(lt, s[..|s| - 1]);
      InsertSorted(lt, s[|s| - 1], Sort(lt, s[..|s| - 1]));
    }
  }

  lemma FilterInsertFront<T(!new)>(lt: (T, T) -> bool, keep: T -> bool, x: T, s: seq<T>)
    requires StrictWeak(lt) && Sorted(lt, s) && s != [] && lt(x, s[0])
    ensures Insert(lt, x, Filter(keep, s)) == [x] + Filter(keep, s)
  {
    FilterMembers(keep, s);
    var f := Filter(keep, s);
    if f != [] {
      assert f[0] in f;
      var j :| 0 <= j < |s| && s[j] == f[0];
      LessThanNotLess(lt, x, s[0], s[j]);
    }
  }

  lemma FilterCons<T>(keep: T -> bool, x: T, s: seq<T>)
    ensures Filter(keep, [x] + s) == (if keep(x) then [x] else []) + Filter(keep, s)
  {
    FilterConcat(keep, [x], s);
    assert Filter(keep, [x]) == if keep(x) then [x] else [];
  }

  ghost predicate CommuteAt<T>(lt: (T, T) -> bool, keep: T -> bool, x: T, s: seq<T>) {
    Filter(keep, Insert(lt, x, s)) == if keep(x) then Insert(lt, x, Filter(keep, s)) else Filter(keep, s)
  }

  lemma FilterInsertBehind<T>(lt: (T, T) -> bool, keep: T -> bool, x: T, s: seq<T>)
    requires s != [] && !lt(x, s[0]) && CommuteAt(lt, keep, x, s[1..])
    ensures CommuteAt(lt, keep, x, s)
  {
    assert s == [s[0]] + s[1..];
    FilterCons(keep, s[0], s[1..]);
    FilterCons(keep, s[0], Insert(lt, x, s[1..]));
    if keep(s[0]) {
      assert Filter(keep, s)[1..] == Filter(keep, s[1..]);
    } else {
      assert Filter(keep, s) == Filter(keep, s[1..]);
    }
  }

  lemma {:induction false} FilterInsert<T(!new)>(lt: (T, T) -> bool, keep: T -> bool, x: T, s: seq<T>)
    requires StrictWeak(lt) && Sorted(lt, s)
    ensures CommuteAt(lt, keep, x, s)
  {
    if s == [] {
      FilterCons(keep, x, []);
    } else if lt(x, s[0]) {
      FilterCons(keep, x, s);
      FilterInsertFront(lt, keep, x, s);
    } else {
      FilterInsert(lt, keep, x, s[1..]);
      FilterInsertBehind(lt, keep, x, s);
    }
  }

  /** Stability in its strongest form: sorting commutes with taking any subsequence by a predicate. */
  lemma {:induction false} SortCommutesWithFilter<T(!new)>(lt: (T, T) -> bool, keep: T -> bool, s: seq<T>)
    requires StrictWeak(lt)
    ensures Filter(keep, Sort(lt, s)) == Sort(lt, Filter(keep, s))
    decreases |s|
  {
    if s != [] {
      var n := |s| - 1;
      SortCommutesWithFilter(lt, keep, s[..n]);
      SortSorted(lt, s[..n]);
      FilterInsert(lt, keep, s[n], Sort(lt, s[..n]));
      var f := Filter(keep, s[..n]);
      if keep(s[n]) { assert (f + [s[n]])[..|f|] == f; } else { assert f + [] == f; }
    }
  }

  lemma {:induction false} InsertLast<T>(lt: (T, T) -> bool, x: T, s: seq<T>)
    requires forall i :: 0 <= i < |s| ==> !lt(x, s[i])
    ensures Insert(lt, x, s) == s + [x]
  {
    if s != [] {
      InsertLast(lt, x, s[1..]);
      assert s == [s[0]] + s[1..];
    }
  }

  /** What is in order already is left alone. */
  lemma {:induction false} SortOfSorted<T>(lt: (T, T) -> bool, s: seq<T>)
    requires Sorted(lt, s)
    ensures Sort(lt, s) == s
    decreases |s|
  {
    if s != [] {
      var n := |s| - 1;
      SortOfSorted(lt, s[..n]);
      InsertLast(lt, s[n], s[..n]);
      assert s == s[..n] + [s[n]];
    }
  }

  ghost predicate StrictlyOrdered<T>(lt: (T, T) -> bool, s: seq<T>) {
    forall i, j :: 0 <= i < j < |s| ==> lt(s[i], s[j])
  }

  lemma {:induction false} StrictHasNoRepeats<T(!new)>(lt: (T, T) -> bool, s: seq<T>, x: T)
    requires StrictWeak(lt) && StrictlyOrdered(lt, s)
    ensures multiset(s)[x] <= 1
    decreases |s|
  {
    if s != [] {
      var n := |s| - 1;
      StrictHasNoRepeats(lt, s[..n], x);
      assert s == s[..n] + [s[n]];
      if s[n] == x {
        assert x !in s[..n];
        assert multiset(s[..n])[x] == 0;
      }
    }
  }

  lemma TwiceCounted<T>(s: seq<T>, i: nat, j: nat)
    requires i < j < |s| && s[i] == s[j]
    ensures multiset(s)[s[i]] >= 2
  {
    assert s == s[..j] + s[j..];
    assert s[i] in s[..j] && s[j] in s[j..];
    assert multiset(s)[s[i]] == multiset(s[..j])[s[i]] + multiset(s[j..])[s[i]];
  }

  /** A part in order of a whole in strict order is in strict order. */
  lemma StrictPart<T(!new)>(lt: (T, T) -> bool, all: seq<T>, part: seq<T>)
    requires StrictWeak(lt) && StrictlyOrdered(lt, all) && Sorted(lt, part) && multiset(part) <= multiset(all)
    ensures StrictlyOrdered(lt, part)
  {
    forall i, j | 0 <= i < j < |part| ensures lt(part[i], part[j]) {
      assert part[i] in multiset(part) && part[j] in multiset(part);
      assert part[i] in multiset(all) && part[j] in multiset(all);
      if part[i] == part[j] {
        TwiceCounted(part, i, j);
        StrictHasNoRepeats(lt, all, part[i]);
      }
      var p :| 0 <= p < |all| && all[p] == part[i];
      var q :| 0 <= q < |all| && all[q] == part[j];
    }
  }

  lemma SameFirst<T>(lt: (T, T) -> bool, a: seq<T>, b: seq<T>)
    requires StrictlyOrdered(lt, a) && Sorted(lt, b) && multiset(a) == multiset(b) && a != [] && b != []
    ensures a[0] == b[0]
  {
    assert a[0] in multiset(b) && b[0] in multiset(a);
    var i :| 0 <= i < |b| && b[i] == a[0];
    var j :| 0 <= j < |a| && a[j] == b[0];
    assert 0 < j ==> lt(b[i], b[0]);
  }

  lemma SameRest<T>(a: seq<T>, b: seq<T>)
    requires multiset(a) == multiset(b) && a != [] && b != [] && a[0] == b[0]
    ensures multiset(a[1..]) == multiset(b[1..])
  {
    assert a == [a[0]] + a[1..] && b == [b[0]] + b[1..];
    assert multiset(a[1..]) == multiset(a) - multiset{a[0]};
    assert multiset(b[1..]) == multiset(b) - multiset{b[0]};
  }

  /** A sequence in strict order is determined by its elements. */
  lemma {:induction false} StrictOrderUnique<T>(lt: (T, T) -> bool, a: seq<T>, b: seq<T>)
    requires StrictlyOrdered(lt, a) && Sorted(lt, b) && multiset(a) == multiset(b)
    ensures a == b
    decreases |a|
  {
    assert |multiset(a)| == |multiset(b)|;
    if a != [] {
      SameFirst(lt, a, b);
      SameRest(a, b);
      StrictOrderUnique(lt, a[1..], b[1..]);
      assert a == [a[0]] + a[1..] && b == [b[0]] + b[1..];
    }
  }

  /** Of a whole in strict order, what a prefix leaves is the rest in order. */
  lemma RestInOrder<T(!new)>(lt: (T, T) -> bool, all: seq<T>, mine: seq<T>, rest: seq<T>)
    requires StrictWeak(lt) && StrictlyOrdered(lt, all)
    requires mine <= all && multiset(mine) + multiset(rest) == multiset(all)
    ensures all == mine + Sort(lt, rest)
  {
    var tail := all[|mine|..];
    assert all == mine + tail;
    assert multiset(tail) == multiset(all) - multiset(mine) == multiset(rest);
    SortSorted(lt, rest);
    SortIsPermutation(lt, rest);
    StrictOrderUnique(lt, tail, Sort(lt, rest));
  }

  ghost predicate AllBelow<T(!new)>(lt: (T, T) -> bool, mine: seq<T>, rest: seq<T>) {
    forall x, y :: x in mine && y in rest ==> lt(x, y)
  }

  lemma SortedJoins<T(!new)>(lt: (T, T) -> bool, mine: seq<T>, rest: seq<T>)
    requires StrictWeak(lt) && Sorted(lt, mine) && AllBelow(lt, mine, rest)
    ensures Sorted(lt, mine + Sort(lt, rest))
  {
    SortSorted(lt, rest);
    SortIsPermutation(lt, rest);
    var all := mine + Sort(lt, rest);
    forall i, j | 0 <= i < j < |all| ensures !lt(all[j], all[i]) {
      if i < |mine| <= j {
        assert all[j] in multiset(Sort(lt, rest));
        assert all[i] in mine && all[j] in rest;
      }
    }
  }

  /** A part of a whole in strict order is a prefix exactly when it is in order and below everything else. */
  lemma PrefixIff<T(!new)>(lt: (T, T) -> bool, all: seq<T>, mine: seq<T>, rest: seq<T>)
    requires StrictWeak(lt) && StrictlyOrdered(lt, all) && multiset(mine) + multiset(rest) == multiset(all)
    ensures mine <= all <==> Sorted(lt, mine) && AllBelow(lt, mine, rest)
  {
    if mine <= all {
      RestInOrder(lt, all, mine, rest);
      SortIsPermutation(lt, rest);
      forall x, y | x in mine && y in rest ensures lt(x, y) {
        assert y in multiset(Sort(lt, rest));
        var i :| 0 <= i < |mine| && mine[i] == x;
        var j :| 0 <= j < |Sort(lt, rest)| && Sort(lt, rest)[j] == y;
        assert all[i] == x && all[|mine| + j] == y;
      }
    }
    if Sorted(lt, mine) && AllBelow(lt, mine, rest) {
      SortedJoins(lt, mine, rest);
      SortIsPermutation(lt, rest);
      StrictOrderUnique(lt, all, mine + Sort(lt, rest));
    }
  }

  lemma SameLeast<T>(lt: (T, T) -> bool, a: seq<T>, b: seq<T>)
    requires Sorted(lt, a) && Sorted(lt, b) && multiset(a) == multiset(b) && a != [] && b != []
    ensures a[0] == b[0] || (!lt(a[0], b[0]) && !lt(b[0], a[0]))
  {
    assert a[0] in multiset(b) && b[0] in multiset(a);
    var i :| 0 <= i < |b| && b[i] == a[0];
    var j :| 0 <= j < |a| && a[j] == b[0];
    assert 0 < i ==> !lt(b[i], b[0]);
    assert 0 < j ==> !lt(a[j], a[0]);
  }

  /** Under an order in which only equal elements tie, a sorted sequence is determined by its elements. */
  lemma {:induction false} TotalOrderUnique<T(!new)>(lt: (T, T) -> bool, a: seq<T>, b: seq<T>)
    requires forall x, y :: !lt(x, y) && !lt(y, x) ==> x == y
    requires Sorted(lt, a) && Sorted(lt, b) && multiset(a) == multiset(b)
    ensures a == b
    decreases |a|
  {
    assert |multiset(a)| == |multiset(b)|;
    if a != [] {
      SameLeast(lt, a, b);
      SameRest(a, b);
      TotalOrderUnique(lt, a[1..], b[1..]);
      assert a == [a[0]] + a[1..] && b == [b[0]] + b[1..];
    }
  }

  function Before<T>(lt: (T, T) -> bool, x: T): T -> bool {
    (y: T) => lt(y, x)
  }

  ghost predicate SplitsAt<T>(lt: (T, T) -> bool, s: seq<T>, x: T, m: nat) {
    forall i :: 0 <= i < |s| ==> (lt(s[i], x) <==> i < m)
  }

  lemma SplitsOnce<T(!new)>(lt: (T, T) -> bool, s: seq<T>, x: T, m: nat)
    requires StrictWeak(lt) && s != [] && Sorted(lt, s) && m <= |s| - 1 && SplitsAt(lt, s[..|s| - 1], x, m)
    ensures lt(s[|s| - 1], x) ==> m == |s| - 1
    ensures SplitsAt(lt, s, x, if lt(s[|s| - 1], x) then |s| else m)
  {
    var n := |s| - 1;
    assert forall i :: 0 <= i < n ==> s[..n][i] == s[i];
    assert m < n ==> !lt(s[n], s[m]);
  }

  /** In order, what comes before `x` comes first. */
  lemma {:induction false} BeforeComesFirst<T(!new)>(lt: (T, T) -> bool, s: seq<T>, x: T)
    requires StrictWeak(lt) && Sorted(lt, s)
    ensures Filter(Before(lt, x), s) <= s && SplitsAt(lt, s, x, |Filter(Before(lt, x), s)|)
    decreases |s|
  {
    if s != [] {
      var n := |s| - 1;
      BeforeComesFirst(lt, s[..n], x);
      SplitsOnce(lt, s, x, |Filter(Before(lt, x), s[..n])|);
      assert s == s[..n] + [s[n]];
    }
  }

  /** Under an order in which only equal elements tie, the first `x` comes right behind what comes before it. */
  lemma FirstBehind<T(!new)>(lt: (T, T) -> bool, s: seq<T>, x: T)
    requires StrictWeak(lt) && Sorted(lt, s) && x in s
    requires forall y, z :: !lt(y, z) && !lt(z, y) ==> y == z
    ensures var m := |Filter(Before(lt, x), s)|;
            m < |s| && s[m] == x && forall j :: 0 <= j < |s| && s[j] == x ==> j >= m
  {
    BeforeComesFirst(lt, s, x);
    var m := |Filter(Before(lt, x), s)|;
    assert !lt(x, x);
    var j :| 0 <= j < |s| && s[j] == x;
    assert m <= j;
    assert m < j ==> !lt(s[j], s[m]);
  }
}
