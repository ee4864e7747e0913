/** The two queues of the sequencer and the blob-packing selection. */
module Pool {
  import opened Machine
  import opened SequencerTypes
  import opened StableSort

  // ---------- selections by position ----------

  /** The elements at the chosen positions, in order. */
  function Pick<T>(s: seq<T>, chosen: set<nat>): seq<T>
    decreases |s|
  {
    if s == [] then []
    else Pick(s[..|s| - 1], chosen) + if |s| - 1 in chosen then [s[|s| - 1]] else []
  }

  function Others<T>(s: seq<T>, chosen: set<nat>): set<nat> {
    set i: nat | i < |s| && i !in chosen
  }

  lemma PickLast<T>(s: seq<T>, chosen: set<nat>)
    requires s != []
    ensures var n := |s| - 1;
            && multiset(Pick(s, chosen))
               == multiset(Pick(s[..n], chosen)) + (if n in chosen then multiset{s[n]} else multiset{})
            && |Pick(s, chosen)| == |Pick(s[..n], chosen)| + (if n in chosen then 1 else 0)
  {
  }

  lemma {:induction false} PickPartitions<T>(s: seq<T>, chosen: set<nat>, others: set<nat>)
    requires forall i: nat :: i < |s| ==> (i in chosen <==> i !in others)
    ensures multiset(Pick(s, chosen)) + multiset(Pick(s, others)) == multiset(s)
    ensures |Pick(s, chosen)| + |Pick(s, others)| == |s|
    decreases |s|
  {
    if s != [] {
      var n := |s| - 1;
      PickPartitions(s[..n], chosen, others);
      MultisetLast(s);
      PickLast(s, chosen);
      PickLast(s, others);
    }
  }

  lemma {:induction false} PickHas<T>(s: seq<T>, chosen: set<nat>, i: nat)
    requires i < |s| && i in chosen
    ensures s[i] in Pick(s, chosen)
    decreases |s|
  {
    if i < |s| - 1 { PickHas(s[..|s| - 1], chosen, i); }
  }

  lemma PickSnoc<T>(s: seq<T>, n: nat, chosen: set<nat>)
    requires n < |s|
    ensures Pick(s[..n + 1], chosen) == Pick(s[..n], chosen) + if n in chosen then [s[n]] else []
  {
    assert s[..n + 1][..n] == s[..n];
  }

  lemma {:induction false} PickedAt<T>(s: seq<T>, n: nat, chosen: set<nat>, x: T) returns (i: nat)
    requires n <= |s| && x in Pick(s[..n], chosen)
    ensures i < n && i in chosen && s[i] == x
    decreases n
  {
    i := 0;
    assert s[..0] == [];
    if n > 0 {
      PickSnoc(s, n - 1, chosen);
      if x in Pick(s[..n - 1], chosen) {
        i := PickedAt(s, n - 1, chosen, x);
      } else {
        i := n - 1;
      }
    }
  }

  // ---------- candidates ----------

  datatype Candidate = Candidate(idx: nat, tx: PooledTransaction, size: nat)

  function Candidates(pool: seq<PooledTransaction>): (c: seq<Candidate>)
    ensures |c| == |pool| && forall i :: 0 <= i < |pool| ==> c[i] == Candidate(i, pool[i], PooledBytes(pool[i]))
  {
    seq(|pool|, i requires 0 <= i < |pool| => Candidate(i, pool[i], PooledBytes(pool[i])))
  }

  function Txs(cs: seq<Candidate>): (txs: seq<PooledTransaction>)
    ensures |txs| == |cs| && forall i :: 0 <= i < |cs| ==> txs[i] == cs[i].tx
  {
    seq(|cs|, i requires 0 <= i < |cs| => cs[i].tx)
  }

  /** Larger first, then higher gas price, then earlier arrival. */
  predicate PackLess(a: Candidate, b: Candidate) {
    a.size > b.size
    || (a.size == b.size
        && (a.tx.tx.gasPrice > b.tx.tx.gasPrice || (a.tx.tx.gasPrice == b.tx.tx.gasPrice && a.idx < b.idx)))
  }

  predicate IdxLess(a: Candidate, b: Candidate) {
    a.idx < b.idx
  }

  function Bytes(cs: seq<Candidate>): nat
    decreases |cs|
  {
    if cs == [] then 0 else Bytes(cs[..|cs| - 1]) + cs[|cs| - 1].size
  }

  // ---------- the greedy pass ----------

  datatype Packing = Packing(selected: seq<Candidate>, remainder: seq<Candidate>, used: nat)

  predicate Fits(p: Packing, c: Candidate, maxCount: nat, maxBytes: nat) {
    |p.selected| < maxCount && SatAdd(p.used, c.size) <= maxBytes
  }

  function Pack(order: seq<Candidate>, maxCount: nat, maxBytes: nat): Packing
    decreases |order|
  {
    if order == [] then Packing([], [], 0)
    else
      var p, c := Pack(order[..|order| - 1], maxCount, maxBytes), order[|order| - 1];
      if Fits(p, c, maxCount, maxBytes) then Packing(p.selected + [c], p.remainder, SatAdd(p.used, c.size))
      else p.(remainder := p.remainder + [c])
  }

  predicate FitsAt(order: seq<Candidate>, k: nat, maxCount: nat, maxBytes: nat)
    requires k < |order|
  {
    Fits(Pack(order[..k], maxCount, maxBytes), order[k], maxCount, maxBytes)
  }

  function PackOrder(pool: seq<PooledTransaction>): seq<Candidate> {
    Sort(PackLess, Candidates(pool))
  }

  /** The pool positions that the greedy pass selects. */
  function Chosen(pool: seq<PooledTransaction>, maxCount: nat, maxBytes: nat): set<nat> {
    var order := PackOrder(pool);
    set k | 0 <= k < |order| && FitsAt(order, k, maxCount, maxBytes) :: order[k].idx
  }

  function UsedBytes(pool: seq<PooledTransaction>, maxCount: nat, maxBytes: nat): nat {
    Pack(PackOrder(pool), maxCount, maxBytes).used
  }

  method GreedyPack(candidates: seq<Candidate>, maxCount: nat, maxBytes: nat)
    returns (selected: seq<Candidate>, remainder: seq<Candidate>, usedBytes: nat)
    ensures Packing(selected, remainder, usedBytes) == Pack(candidates, maxCount, maxBytes)
  {
    selected, remainder, usedBytes := [], [], 0;
    for i := 0 to |candidates|
      invariant Packing(selected, remainder, usedBytes) == Pack(candidates[..i], maxCount, maxBytes)
    {
      assert candidates[..i + 1][..i] == candidates[..i];
      var c := candidates[i];
      var fitsCount := |selected| < maxCount;
      var fitsBytes := SatAdd(usedBytes, c.size) <= maxBytes;
      if fitsCount && fitsBytes {
        usedBytes := SatAdd(usedBytes, c.size);
        selected := selected + [c];
      } else {
        remainder := remainder + [c];
      }
    }
    assert candidates[..|candidates|] == candidates;
  }

  // ---------- the queues ----------

  class ForcedQueue {
    var transactions: seq<ForcedTransaction>

    constructor ()
      ensures transactions == []
    {
      transactions := [];
    }

    method Add(tx: ForcedTransaction)
      modifies this
      ensures transactions == old(transactions) + [tx]
    {
      transactions := transactions + [tx];
    }

    method GetAll() returns (all: seq<ForcedTransaction>)
      modifies this
      ensures all == old(transactions) && transactions == []
    {
      all := transactions;
      transactions := [];
    }
  }

  class TransactionPool {
    var transactions: seq<PooledTransaction>
    var totalReceived: u64

    constructor ()
      ensures transactions == [] && totalReceived == 0
    {
      transactions, totalReceived := [], 0;
    }

    method Add(tx: PooledTransaction)
      modifies this
      ensures transactions == old(transactions) + [tx]
      ensures totalReceived == (old(totalReceived) + 1) % TWO_64
    {
      transactions := transactions + [tx];
      totalReceived := (totalReceived + 1) % TWO_64;
    }

    method GetPending(max: nat) returns (taken: seq<PooledTransaction>)
      modifies this`transactions
      ensures taken + transactions == old(transactions)
      ensures |taken| == Min(max, |old(transactions)|)
    {
      var n := Min(max, |transactions|);
      taken := transactions[..n];
      transactions := transactions[n..];
    }

    method TakeBlobPacked(maxCount: nat, maxBytes: nat) returns (taken: seq<PooledTransaction>, usedBytes: nat)
      modifies this`transactions
      ensures var chosen := Chosen(old(transactions), maxCount, maxBytes);
              && taken == Pick(old(transactions), chosen)
              && transactions == Pick(old(transactions), Others(old(transactions), chosen))
      ensures usedBytes == UsedBytes(old(transactions), maxCount, maxBytes)
    {
      ghost var pool := transactions;
      var candidates := Sort(PackLess, Candidates(transactions));
      var selected, remainder, used := GreedyPack(candidates, maxCount, maxBytes);
      selected := Sort(IdxLess, selected);
      remainder := Sort(IdxLess, remainder);
      PackedInArrivalOrder(pool, maxCount, maxBytes);
      transactions := Txs(remainder);
      taken, usedBytes := Txs(selected), used;
    }
  }

  // ---------- selection and remainder are subsequences of the pool ----------

  lemma PackOrders()
    ensures StrictWeak(PackLess) && StrictWeak(IdxLess)
  {
  }

  lemma {:induction false} PackIsFilter(order: seq<Candidate>, i: nat, maxCount: nat, maxBytes: nat,
                                        keep: Candidate -> bool, drop: Candidate -> bool)
    requires i <= |order|
    requires forall k :: 0 <= k < |order| ==> (keep(order[k]) <==> FitsAt(order, k, maxCount, maxBytes))
    requires forall k :: 0 <= k < |order| ==> (drop(order[k]) <==> !FitsAt(order, k, maxCount, maxBytes))
    ensures Pack(order[..i], maxCount, maxBytes).selected == Filter(keep, order[..i])
    ensures Pack(order[..i], maxCount, maxBytes).remainder == Filter(drop, order[..i])
    decreases i
  {
    if i > 0 {
      PackIsFilter(order, i - 1, maxCount, maxBytes, keep, drop);
      assert order[..i][..i - 1] == order[..i - 1];
      assert keep(order[i - 1]) <==> FitsAt(order, i - 1, maxCount, maxBytes);
    }
  }

  lemma PackOrderIsPermutation(pool: seq<PooledTransaction>)
    ensures multiset(PackOrder(pool)) == multiset(Candidates(pool))
    ensures |PackOrder(pool)| == |pool|
    ensures forall k :: 0 <= k < |PackOrder(pool)| ==>
              var c := PackOrder(pool)[k]; c.idx < |pool| && c == Candidates(pool)[c.idx]
    ensures forall k, l :: 0 <= k < l < |PackOrder(pool)| ==> PackOrder(pool)[k].idx != PackOrder(pool)[l].idx
  {
    var order, cs := PackOrder(pool), Candidates(pool);
    SortIsPermutation(PackLess, cs);
    forall k | 0 <= k < |order| ensures order[k].idx < |pool| && order[k] == cs[order[k].idx] {
      assert order[k] in multiset(order);
      assert order[k] in cs;
    }
    forall k, l | 0 <= k < l < |order| ensures order[k].idx != order[l].idx {
      NoRepeats(cs, order, k, l);
    }
  }

  lemma {:induction false} DistinctOnce(cs: seq<Candidate>, c: Candidate)
    requires forall i, j :: 0 <= i < j < |cs| ==> cs[i] != cs[j]
    ensures multiset(cs)[c] <= 1
    decreases |cs|
  {
    if cs != [] {
      DistinctOnce(cs[..|cs| - 1], c);
      assert cs == cs[..|cs| - 1] + [cs[|cs| - 1]];
    }
  }

  lemma NoRepeats(cs: seq<Candidate>, order: seq<Candidate>, k: nat, l: nat)
    requires multiset(cs) == multiset(order) && k < l < |order|
    requires forall i, j :: 0 <= i < j < |cs| ==> cs[i] != cs[j]
    ensures order[k] != order[l]
  {
    DistinctOnce(cs, order[k]);
    assert order == order[..l] + [order[l]] + order[l + 1..];
    assert order[k] in order[..l];
  }

  lemma {:induction false} FilterIsPick(pool: seq<PooledTransaction>, n: nat, chosen: set<nat>, keep: Candidate -> bool)
    requires n <= |pool| && forall c: Candidate :: keep(c) <==> c.idx in chosen
    ensures Txs(Filter(keep, Candidates(pool)[..n])) == Pick(pool[..n], chosen)
    decreases n
  {
    if n > 0 {
      FilterIsPick(pool, n - 1, chosen, keep);
      assert pool[..n][..n - 1] == pool[..n - 1];
      assert Candidates(pool)[..n][..n - 1] == Candidates(pool)[..n - 1];
      var f := Filter(keep, Candidates(pool)[..n - 1]);
      assert Txs(f + [Candidates(pool)[n - 1]]) == Txs(f) + [pool[n - 1]];
      assert f + [] == f;
    }
  }

  lemma SortedBack(pool: seq<PooledTransaction>)
    ensures Sort(IdxLess, PackOrder(pool)) == Candidates(pool)
  {
    PackOrders();
    SortSorted(IdxLess, PackOrder(pool));
    SortIsPermutation(IdxLess, PackOrder(pool));
    SortIsPermutation(PackLess, Candidates(pool));
    StrictOrderUnique(IdxLess, Candidates(pool), Sort(IdxLess, PackOrder(pool)));
  }

  /** Sorting back by index restores arrival order for any subset of the packing order. */
  lemma SortedBackIsPick(pool: seq<PooledTransaction>, chosen: set<nat>, keep: Candidate -> bool)
    requires forall c: Candidate :: keep(c) <==> c.idx in chosen
    ensures Txs(Sort(IdxLess, Filter(keep, PackOrder(pool)))) == Pick(pool, chosen)
  {
    assert Sort(IdxLess, Filter(keep, PackOrder(pool))) == Filter(keep, Sort(IdxLess, PackOrder(pool))) by {
      PackOrders();
      SortCommutesWithFilter(IdxLess, keep, PackOrder(pool));
    }
    SortedBack(pool);
    FilterIsPick(pool, |pool|, chosen, keep);
    assert Candidates(pool)[..|pool|] == Candidates(pool) && pool[..|pool|] == pool;
  }

  /** What is returned and what stays are the chosen and the other positions of the pool, both in arrival order. */
  lemma PackedInArrivalOrder(pool: seq<PooledTransaction>, maxCount: nat, maxBytes: nat)
    ensures var p, chosen := Pack(PackOrder(pool), maxCount, maxBytes), Chosen(pool, maxCount, maxBytes);
            && Txs(Sort(IdxLess, p.selected)) == Pick(pool, chosen)
            && Txs(Sort(IdxLess, p.remainder)) == Pick(pool, Others(pool, chosen))
  {
    var order, chosen := PackOrder(pool), Chosen(pool, maxCount, maxBytes);
    var others := Others(pool, chosen);
    var keep := (c: Candidate) => c.idx in chosen;
    var drop := (c: Candidate) => c.idx in others;
    PackOrderIsPermutation(pool);
    forall k | 0 <= k < |order|
      ensures keep(order[k]) <==> FitsAt(order, k, maxCount, maxBytes)
      ensures drop(order[k]) <==> !FitsAt(order, k, maxCount, maxBytes)
    {
      if keep(order[k]) {
        var l :| 0 <= l < |order| && FitsAt(order, l, maxCount, maxBytes) && order[l].idx == order[k].idx;
        assert l == k;
      }
    }
    PackIsFilter(order, |order|, maxCount, maxBytes, keep, drop);
    assert order[..|order|] == order;
    SortedBackIsPick(pool, chosen, keep);
    SortedBackIsPick(pool, others, drop);
  }
}
