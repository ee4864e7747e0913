/** Budgets, maximality and preference of the blob-packing selection. */
module PackingProperties {
  import opened Machine
  import opened SequencerTypes
  import opened StableSort
  import opened Pool

  function SizeOf(txs: seq<PooledTransaction>): nat
    decreases |txs|
  {
    if txs == [] then 0 else SizeOf(txs[..|txs| - 1]) + PooledBytes(txs[|txs| - 1])
  }

  /** The byte counter cannot saturate. */
  ghost predicate CounterFits(pool: seq<PooledTransaction>, maxBytes: nat) {
    maxBytes < U64_MAX || SizeOf(pool) <= U64_MAX
  }

  // ---------- sizes do not depend on order ----------

  ghost predicate TrueSizes(cs: seq<Candidate>) {
    forall i :: 0 <= i < |cs| ==> cs[i].size == PooledBytes(cs[i].tx)
  }

  lemma BytesSnoc(cs: seq<Candidate>, c: Candidate)
    ensures Bytes(cs + [c]) == Bytes(cs) + c.size
  {
    assert (cs + [c])[..|cs|] == cs;
  }

  lemma {:induction false} BytesConcat(a: seq<Candidate>, b: seq<Candidate>)
    ensures Bytes(a + b) == Bytes(a) + Bytes(b)
    decreases |b|
  {
    if b == [] {
      assert a + b == a;
    } else {
      var n := |b| - 1;
      BytesConcat(a, b[..n]);
      assert a + b == (a + b[..n]) + [b[n]];
      BytesSnoc(a + b[..n], b[n]);
    }
  }

  lemma {:induction false} BytesInsert(lt: (Candidate, Candidate) -> bool, c: Candidate, cs: seq<Candidate>)
    ensures Bytes(Insert(lt, c, cs)) == Bytes(cs) + c.size
  {
    BytesConcat([c], cs);
    if cs != [] && !lt(c, cs[0]) {
      BytesInsert(lt, c, cs[1..]);
      BytesConcat([cs[0]], cs[1..]);
      BytesConcat([cs[0]], Insert(lt, c, cs[1..]));
      assert cs == [cs[0]] + cs[1..];
    }
  }

  lemma {:induction false} BytesSort(lt: (Candidate, Candidate) -> bool, cs: seq<Candidate>)
    ensures Bytes(Sort(lt, cs)) == Bytes(cs)
    decreases |cs|
  {
    if cs != [] {
      BytesSort(lt, cs[..|cs| - 1]);
      BytesInsert(lt, cs[|cs| - 1], Sort(lt, cs[..|cs| - 1]));
    }
  }

  lemma {:induction false} BytesAreSizes(cs: seq<Candidate>)
    requires TrueSizes(cs)
    ensures Bytes(cs) == SizeOf(Txs(cs))
    decreases |cs|
  {
    if cs != [] {
      BytesAreSizes(cs[..|cs| - 1]);
      assert Txs(cs)[..|cs| - 1] == Txs(cs[..|cs| - 1]);
    }
  }

  // ---------- the pass, position by position ----------

  lemma {:induction false} PackGrows(order: seq<Candidate>, k: nat, maxCount: nat, maxBytes: nat)
    requires k <= |order|
    ensures Pack(order[..k], maxCount, maxBytes).used <= Pack(order, maxCount, maxBytes).used
    ensures |Pack(order[..k], maxCount, maxBytes).selected| <= |Pack(order, maxCount, maxBytes).selected|
    decreases |order|
  {
    if k < |order| {
      var n := |order| - 1;
      PackGrows(order[..n], k, maxCount, maxBytes);
      assert order[..n][..k] == order[..k];
      PackUsedFits(order[..n], maxCount, maxBytes);
    } else {
      assert order[..k] == order;
    }
  }

  lemma {:induction false} PackUsedFits(order: seq<Candidate>, maxCount: nat, maxBytes: nat)
    ensures Pack(order, maxCount, maxBytes).used <= Min(maxBytes, U64_MAX)
    ensures |Pack(order, maxCount, maxBytes).selected| <= maxCount
    decreases |order|
  {
    if order != [] {
      PackUsedFits(order[..|order| - 1], maxCount, maxBytes);
    }
  }

  lemma {:induction false} UsedIsBytes(order: seq<Candidate>, maxCount: nat, maxBytes: nat)
    requires maxBytes < U64_MAX || Bytes(order) <= U64_MAX
    ensures Pack(order, maxCount, maxBytes).used == Bytes(Pack(order, maxCount, maxBytes).selected) <= Bytes(order)
    decreases |order|
  {
    if order != [] {
      var n := |order| - 1;
      UsedIsBytes(order[..n], maxCount, maxBytes);
      BytesSnoc(Pack(order[..n], maxCount, maxBytes).selected, order[n]);
    }
  }

  /** A candidate that was passed over is kept out by the final budgets too. */
  lemma PassedOverStaysOut(order: seq<Candidate>, k: nat, maxCount: nat, maxBytes: nat)
    requires k < |order| && !FitsAt(order, k, maxCount, maxBytes)
    ensures var p := Pack(order, maxCount, maxBytes);
            |p.selected| == maxCount || p.used + order[k].size > maxBytes
  {
    PackGrows(order, k, maxCount, maxBytes);
    PackUsedFits(order, maxCount, maxBytes);
  }

  lemma PassedOverForLater(order: seq<Candidate>, k: nat, l: nat, maxCount: nat, maxBytes: nat)
    requires k < l < |order| && !FitsAt(order, k, maxCount, maxBytes) && FitsAt(order, l, maxCount, maxBytes)
    requires Pack(order[..l], maxCount, maxBytes).used + order[l].size <= maxBytes
    ensures order[k].size > order[l].size
  {
    assert order[..l][..k] == order[..k];
    PackGrows(order[..l], k, maxCount, maxBytes);
  }

  // ---------- the selection, in pool terms ----------

  lemma SelectedTrueSizes(pool: seq<PooledTransaction>, maxCount: nat, maxBytes: nat)
    ensures TrueSizes(Pack(PackOrder(pool), maxCount, maxBytes).selected)
  {
    PackOrderIsPermutation(pool);
    var order := PackOrder(pool);
    var selected := Pack(order, maxCount, maxBytes).selected;
    SelectedFromOrder(order, maxCount, maxBytes);
    forall i | 0 <= i < |selected| ensures selected[i].size == PooledBytes(selected[i].tx) {
      assert selected[i] in order;
      var k :| 0 <= k < |order| && order[k] == selected[i];
    }
  }

  lemma {:induction false} SelectedFromOrder(order: seq<Candidate>, maxCount: nat, maxBytes: nat)
    ensures forall c :: c in Pack(order, maxCount, maxBytes).selected ==> c in order
    decreases |order|
  {
    if order != [] {
      SelectedFromOrder(order[..|order| - 1], maxCount, maxBytes);
    }
  }

  /** Budgets hold, the returned byte count is exact, and nothing left over would still fit. */
  lemma PackingBudgets(pool: seq<PooledTransaction>, maxCount: nat, maxBytes: nat)
    requires CounterFits(pool, maxBytes)
    ensures var chosen := Chosen(pool, maxCount, maxBytes);
            && |Pick(pool, chosen)| <= maxCount
            && UsedBytes(pool, maxCount, maxBytes) == SizeOf(Pick(pool, chosen)) <= maxBytes
            && (|Pick(pool, chosen)| == maxCount
                || forall i :: i in Others(pool, chosen) ==>
                     SizeOf(Pick(pool, chosen)) + PooledBytes(pool[i]) > maxBytes)
  {
    var order, chosen := PackOrder(pool), Chosen(pool, maxCount, maxBytes);
    var p := Pack(order, maxCount, maxBytes);
    PackedInArrivalOrder(pool, maxCount, maxBytes);
    PackUsedFits(order, maxCount, maxBytes);
    SortIsPermutation(IdxLess, p.selected);
    assert UsedBytes(pool, maxCount, maxBytes) == SizeOf(Pick(pool, chosen)) by {
      TotalBytes(pool);
      UsedIsBytes(order, maxCount, maxBytes);
      BytesSort(IdxLess, p.selected);
      SelectedTrueSizes(pool, maxCount, maxBytes);
      SortKeepsSizes(p.selected);
      BytesAreSizes(Sort(IdxLess, p.selected));
    }
    forall i | i in Others(pool, chosen)
      ensures |Pick(pool, chosen)| == maxCount || SizeOf(Pick(pool, chosen)) + PooledBytes(pool[i]) > maxBytes
    {
      var k := PositionOf(pool, i);
      PassedOverStaysOut(order, k, maxCount, maxBytes);
    }
  }

  lemma TotalBytes(pool: seq<PooledTransaction>)
    ensures Bytes(PackOrder(pool)) == SizeOf(pool)
  {
    BytesSort(PackLess, Candidates(pool));
    BytesAreSizes(Candidates(pool));
    assert Txs(Candidates(pool)) == pool;
  }

  lemma SortKeepsSizes(cs: seq<Candidate>)
    requires TrueSizes(cs)
    ensures TrueSizes(Sort(IdxLess, cs))
  {
    SortIsPermutation(IdxLess, cs);
    forall i | 0 <= i < |Sort(IdxLess, cs)| ensures Sort(IdxLess, cs)[i].size == PooledBytes(Sort(IdxLess, cs)[i].tx) {
      assert Sort(IdxLess, cs)[i] in multiset(cs);
    }
  }

  /** Where a pool position stands in packing order. */
  lemma PositionOf(pool: seq<PooledTransaction>, i: nat) returns (k: nat)
    requires i < |pool|
    ensures k < |PackOrder(pool)| && PackOrder(pool)[k] == Candidates(pool)[i]
  {
    PackOrderIsPermutation(pool);
    assert Candidates(pool)[i] in multiset(PackOrder(pool));
    k :| 0 <= k < |PackOrder(pool)| && PackOrder(pool)[k] == Candidates(pool)[i];
  }

  /** A transaction passed over for one that ranks behind it is strictly larger than that one. */
  lemma PassedOverIsLarger(pool: seq<PooledTransaction>, maxCount: nat, maxBytes: nat, i: nat, j: nat)
    requires CounterFits(pool, maxBytes)
    requires i in Others(pool, Chosen(pool, maxCount, maxBytes)) && j in Chosen(pool, maxCount, maxBytes)
    requires j < |pool| && PackLess(Candidates(pool)[i], Candidates(pool)[j])
    ensures PooledBytes(pool[i]) > PooledBytes(pool[j])
  {
    var order := PackOrder(pool);
    PackOrderIsPermutation(pool);
    var k := PositionOf(pool, i);
    var l :| 0 <= l < |order| && FitsAt(order, l, maxCount, maxBytes) && order[l].idx == j;
    RanksBefore(pool, k, l);
    UsedBeforeFits(pool, l, maxCount, maxBytes);
    PassedOverForLater(order, k, l, maxCount, maxBytes);
  }

  lemma RanksBefore(pool: seq<PooledTransaction>, k: nat, l: nat)
    requires k < |PackOrder(pool)| && l < |PackOrder(pool)| && PackLess(PackOrder(pool)[k], PackOrder(pool)[l])
    ensures k < l
  {
    PackOrders();
    SortSorted(PackLess, Candidates(pool));
  }

  lemma BytesUpTo(cs: seq<Candidate>, l: nat)
    requires l < |cs|
    ensures Bytes(cs[..l]) + cs[l].size <= Bytes(cs)
  {
    BytesSnoc(cs[..l], cs[l]);
    BytesConcat(cs[..l] + [cs[l]], cs[l + 1..]);
    assert cs == cs[..l] + [cs[l]] + cs[l + 1..];
  }

  lemma UsedBeforeFits(pool: seq<PooledTransaction>, l: nat, maxCount: nat, maxBytes: nat)
    requires CounterFits(pool, maxBytes)
    requires l < |PackOrder(pool)| && FitsAt(PackOrder(pool), l, maxCount, maxBytes)
    ensures Pack(PackOrder(pool)[..l], maxCount, maxBytes).used + PackOrder(pool)[l].size <= maxBytes
  {
    var order := PackOrder(pool);
    TotalBytes(pool);
    BytesUpTo(order, l);
    UsedIsBytes(order[..l], maxCount, maxBytes);
  }

  lemma SelectsWithinCount(pool: seq<PooledTransaction>, maxCount: nat, maxBytes: nat)
    ensures |Pick(pool, Chosen(pool, maxCount, maxBytes))| <= maxCount
  {
    PackedInArrivalOrder(pool, maxCount, maxBytes);
    PackUsedFits(PackOrder(pool), maxCount, maxBytes);
    SortIsPermutation(IdxLess, Pack(PackOrder(pool), maxCount, maxBytes).selected);
  }

  /** If each transaction fits the byte budget alone, something is selected. */
  lemma SelectsSomething(pool: seq<PooledTransaction>, maxCount: nat, maxBytes: nat)
    requires pool != [] && maxCount > 0 && maxBytes < U64_MAX
    requires PooledBytes(pool[0]) <= maxBytes
    ensures Pick(pool, Chosen(pool, maxCount, maxBytes)) != []
  {
    var chosen := Chosen(pool, maxCount, maxBytes);
    if 0 in chosen {
      PickHas(pool, chosen, 0);
    } else {
      PackingBudgets(pool, maxCount, maxBytes);
      assert 0 in Others(pool, chosen);
    }
  }

  /** Between equal sizes, the one that pays more, or else came first, is selected. */
  lemma EqualSizesByPrice(pool: seq<PooledTransaction>, maxCount: nat, maxBytes: nat, i: nat, j: nat)
    requires CounterFits(pool, maxBytes)
    requires i in Others(pool, Chosen(pool, maxCount, maxBytes)) && j in Chosen(pool, maxCount, maxBytes)
    requires j < |pool| && PooledBytes(pool[i]) == PooledBytes(pool[j])
    ensures pool[j].tx.gasPrice > pool[i].tx.gasPrice || (pool[j].tx.gasPrice == pool[i].tx.gasPrice && j < i)
  {
    if PackLess(Candidates(pool)[i], Candidates(pool)[j]) {
      PassedOverIsLarger(pool, maxCount, maxBytes, i, j);
    }
  }
}
