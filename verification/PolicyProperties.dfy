/** What every policy keeps, and when a merge does not depend on the order of the hash map. */
module PolicyProperties {
  import opened Machine
  import opened Folds
  import opened SequencerTypes
  import opened StableSort
  import opened Policies

  // ---------- each sender's transactions ----------

  lemma BySenderSnoc(txs: seq<PooledTransaction>, tx: PooledTransaction, sender: Address)
    ensures BySender(txs + [tx], sender) == BySender(txs, sender) + if tx.tx.from == sender then [tx] else []
  {
    assert (txs + [tx])[..|txs|] == txs;
  }

  lemma PopTakesHead(queues: Queues, tx: PooledTransaction, s: Address)
    requires tx.tx.from in queues && queues[tx.tx.from] != [] && queues[tx.tx.from][0] == tx
    ensures (if tx.tx.from == s then [tx] else []) + QueueOf(Pop(queues, tx.tx.from), s) == QueueOf(queues, s)
  {
  }

  lemma Regroup<T>(a: seq<T>, b: seq<T>, c: seq<T>, d: seq<T>)
    requires b + c == d
    ensures (a + b) + c == a + d
  {
    assert (a + b) + c == a + (b + c);
  }

  lemma EmitMovesHead(emitted: seq<PooledTransaction>, left: Queues, tx: PooledTransaction, s: Address)
    requires tx.tx.from in left && left[tx.tx.from] != [] && left[tx.tx.from][0] == tx
    ensures (emitted + if tx.tx.from == s then [tx] else []) + QueueOf(Pop(left, tx.tx.from), s)
            == emitted + QueueOf(left, s)
  {
    PopTakesHead(left, tx, s);
    Regroup(emitted, if tx.tx.from == s then [tx] else [], QueueOf(Pop(left, tx.tx.from), s), QueueOf(left, s));
  }

  lemma BySenderPrefix(out: seq<PooledTransaction>, i: nat, s: Address)
    requires i < |out|
    ensures BySender(out[..i + 1], s) == BySender(out[..i], s) + if out[i].tx.from == s then [out[i]] else []
  {
    assert out[..i + 1][..i] == out[..i];
  }

  lemma AfterPrefix(queues: Queues, out: seq<PooledTransaction>, i: nat)
    requires i < |out|
    ensures After(queues, out[..i + 1]) == Pop(After(queues, out[..i]), out[i].tx.from)
  {
    assert out[..i + 1][..i] == out[..i];
  }

  lemma EmitStep(queues: Queues, out: seq<PooledTransaction>, i: nat, s: Address)
    requires i < |out|
    requires var left, sender := After(queues, out[..i]), out[i].tx.from;
             sender in left && left[sender] != [] && left[sender][0] == out[i]
    ensures BySender(out[..i + 1], s) + QueueOf(After(queues, out[..i + 1]), s)
            == BySender(out[..i], s) + QueueOf(After(queues, out[..i]), s)
  {
    BySenderPrefix(out, i, s);
    AfterPrefix(queues, out, i);
    EmitMovesHead(BySender(out[..i], s), After(queues, out[..i]), out[i], s);
  }

  lemma EmittedIsHead(policy: Policy, queues: Queues, out: seq<PooledTransaction>, i: nat)
    requires IsMerging(policy) && Valid(policy) && AllBest(policy, queues, out) && i < |out|
    ensures var left := After(queues, out[..i]);
            out[i].tx.from in left && left[out[i].tx.from] != [] && left[out[i].tx.from][0] == out[i]
  {
    assert BestAt(policy, queues, out, i);
  }

  /** What a sender has emitted and what it still queues make up its queue. */
  lemma EmittedPlusQueued(policy: Policy, queues: Queues, out: seq<PooledTransaction>, i: nat, s: Address)
    requires IsMerging(policy) && Valid(policy)
    requires AllBest(policy, queues, out) && i <= |out|
    ensures BySender(out[..i], s) + QueueOf(After(queues, out[..i]), s) == QueueOf(queues, s)
  {
    var holds := (k: nat) => k <= |out| ==>
                   BySender(out[..k], s) + QueueOf(After(queues, out[..k]), s) == QueueOf(queues, s);
    NothingEmitted(queues, out, s);
    forall k: nat | holds(k) ensures holds(k + 1) {
      if k < |out| {
        EmittedIsHead(policy, queues, out, k);
        EmitStep(queues, out, k, s);
      }
    }
    Induct(holds, i);
  }

  lemma NothingEmitted(queues: Queues, out: seq<PooledTransaction>, s: Address)
    ensures BySender(out[..0], s) + QueueOf(After(queues, out[..0]), s) == QueueOf(queues, s)
  {
    assert out[..0] == [];
  }

  /** A merge lists each sender's transactions by nonce, equal nonces in input order. */
  lemma MergeKeepsNonceOrder(policy: Policy, txs: seq<PooledTransaction>, out: seq<PooledTransaction>, sender: Address)
    requires IsMerging(policy) && Valid(policy) && OrderedBy(policy, txs, out)
    ensures BySender(out, sender) == Sort(NonceLess, BySender(txs, sender))
  {
    QueueIsSortedBySender(txs, sender);
    EmittedPlusQueued(policy, NonceSorted(Group(txs)), out, |out|, sender);
    assert out[..|out|] == out;
  }

  lemma OrdersAreStrictWeak()
    ensures StrictWeak(NonceLess) && StrictWeak(TimestampLess)
  {
  }

  /** Fair ordering keeps a sender's order whenever that sender's timestamps do not decrease in it. */
  lemma FairOrderKeepsSender(txs: seq<PooledTransaction>, sender: Address)
    ensures BySender(Sort(TimestampLess, txs), sender) == Sort(TimestampLess, BySender(txs, sender))
    ensures Sorted(TimestampLess, Sort(TimestampLess, txs))
    ensures Sorted(TimestampLess, BySender(txs, sender)) ==>
              BySender(Sort(TimestampLess, txs), sender) == BySender(txs, sender)
  {
    OrdersAreStrictWeak();
    SortCommutesWithFilter(TimestampLess, SentFrom(sender), txs);
    SortSorted(TimestampLess, txs);
    if Sorted(TimestampLess, BySender(txs, sender)) {
      SortOfSorted(TimestampLess, BySender(txs, sender));
    }
  }

  // ---------- permutation ----------

  lemma CountBySender(txs: seq<PooledTransaction>, tx: PooledTransaction)
    ensures multiset(txs)[tx] == multiset(BySender(txs, tx.tx.from))[tx]
  {
    FilterCount(SentFrom(tx.tx.from), txs, tx);
  }

  /** Every policy, in every hash map order, returns a permutation of its input. */
  lemma PolicyIsPermutation(policy: Policy, txs: seq<PooledTransaction>, out: seq<PooledTransaction>)
    requires Valid(policy) && OrderedBy(policy, txs, out)
    ensures multiset(out) == multiset(txs) && |out| == |txs|
  {
    match policy
    case Fcfs =>
    case FairBft => SortIsPermutation(TimestampLess, txs);
    case _ =>
      forall tx ensures multiset(out)[tx] == multiset(txs)[tx] {
        CountBySender(out, tx);
        CountBySender(txs, tx);
        MergeKeepsNonceOrder(policy, txs, out, tx.tx.from);
        SortIsPermutation(NonceLess, BySender(txs, tx.tx.from));
      }
      assert multiset(out) == multiset(txs);
      assert |multiset(out)| == |multiset(txs)|;
  }

  /** A sender whose input is already in nonce order keeps its order under every policy but the fair one. */
  lemma SenderOrderKept(policy: Policy, txs: seq<PooledTransaction>, out: seq<PooledTransaction>, sender: Address)
    requires Valid(policy) && policy != FairBft && OrderedBy(policy, txs, out)
    requires Sorted(NonceLess, BySender(txs, sender))
    ensures BySender(out, sender) == BySender(txs, sender)
  {
    if policy != Fcfs {
      MergeKeepsNonceOrder(policy, txs, out, sender);
      SortOfSorted(NonceLess, BySender(txs, sender));
    }
  }

  // ---------- greediness, read off the output ----------

  lemma {:induction false} BySenderOfRange(out: seq<PooledTransaction>, i: nat, j: nat, s: Address)
    requires i <= j <= |out| && forall k :: i <= k < j ==> out[k].tx.from != s
    ensures BySender(out[..j], s) == BySender(out[..i], s)
    decreases j
  {
    if i < j {
      BySenderOfRange(out, i, j - 1, s);
      BySenderPrefix(out, j - 1, s);
    }
  }

  /** No transaction is beaten by the next one of any other sender. */
  lemma NotBeatenByAnyHead(policy: Policy, txs: seq<PooledTransaction>, out: seq<PooledTransaction>, i: nat, j: nat)
    requires IsMerging(policy) && Valid(policy) && OrderedBy(policy, txs, out)
    requires i < j < |out| && forall k :: i <= k < j ==> out[k].tx.from != out[j].tx.from
    ensures !Better(policy, out[j], out[i])
  {
    var queues, s := NonceSorted(Group(txs)), out[j].tx.from;
    EmittedPlusQueued(policy, queues, out, i, s);
    EmittedPlusQueued(policy, queues, out, j, s);
    BySenderOfRange(out, i, j, s);
    assert BestAt(policy, queues, out, i) && BestAt(policy, queues, out, j);
    var before, queue := BySender(out[..i], s), QueueOf(queues, s);
    assert QueueOf(After(queues, out[..i]), s) == queue[|before|..] == QueueOf(After(queues, out[..j]), s);
  }

  /** The ranking a transaction has over the next one of any other sender, spelled out per policy. */
  lemma HeadsAreRanked(policy: Policy, txs: seq<PooledTransaction>, out: seq<PooledTransaction>, i: nat, j: nat)
    requires IsMerging(policy) && Valid(policy) && OrderedBy(policy, txs, out)
    requires i < j < |out| && forall k :: i <= k < j ==> out[k].tx.from != out[j].tx.from
    ensures var a, b := out[i].tx, out[j].tx;
            match policy
            case FeePriority => a.gasPrice >= b.gasPrice && (a.gasPrice == b.gasPrice ==> a.timestamp <= b.timestamp)
            case TimeBoost(w) =>
              && a.timestamp / w <= b.timestamp / w
              && (a.timestamp / w == b.timestamp / w ==> Boost(out[i]) >= Boost(out[j]))
              && (a.timestamp / w == b.timestamp / w && Boost(out[i]) == Boost(out[j]) ==>
                    a.gasPrice >= b.gasPrice && (a.gasPrice == b.gasPrice ==> a.timestamp <= b.timestamp))
            case _ =>
              && PooledBytes(out[i]) >= PooledBytes(out[j])
              && (PooledBytes(out[i]) == PooledBytes(out[j]) ==>
                    a.gasPrice >= b.gasPrice && (a.gasPrice == b.gasPrice ==> a.timestamp <= b.timestamp))
  {
    NotBeatenByAnyHead(policy, txs, out, i, j);
  }

  // ---------- independence of the hash map order ----------

  /** No other sender's head ties with `tx`. */
  ghost predicate OnlyBest(policy: Policy, queues: Queues, tx: PooledTransaction)
    requires IsMerging(policy) && Valid(policy)
  {
    forall s :: s in queues && s != tx.tx.from && queues[s] != [] ==> Better(policy, tx, queues[s][0])
  }

  ghost predicate OnlyBestAt(policy: Policy, queues: Queues, out: seq<PooledTransaction>, i: nat)
    requires IsMerging(policy) && Valid(policy) && i < |out|
  {
    OnlyBest(policy, After(queues, out[..i]), out[i])
  }

  /** Along a merge, the best head was always the only one. */
  ghost predicate NeverTied(policy: Policy, queues: Queues, out: seq<PooledTransaction>)
    requires IsMerging(policy) && Valid(policy)
  {
    forall i :: 0 <= i < |out| ==> OnlyBestAt(policy, queues, out, i)
  }

  lemma OneBest(policy: Policy, queues: Queues, x: PooledTransaction, y: PooledTransaction)
    requires IsMerging(policy) && Valid(policy)
    requires IsBestHead(policy, queues, x) && OnlyBest(policy, queues, x) && IsBestHead(policy, queues, y)
    ensures x == y
  {
  }

  lemma EndsWhenEmpty(policy: Policy, queues: Queues, out: seq<PooledTransaction>, k: nat)
    requires IsMerging(policy) && Valid(policy) && IsMerge(policy, queues, out)
    requires k <= |out| && After(queues, out[..k]) == map[]
    ensures k == |out|
  {
    if k < |out| {
      EmittedIsHead(policy, queues, out, k);
    }
  }

  lemma SameNext(policy: Policy, queues: Queues, o1: seq<PooledTransaction>, o2: seq<PooledTransaction>, i: nat)
    requires IsMerging(policy) && Valid(policy)
    requires AllBest(policy, queues, o1) && AllBest(policy, queues, o2) && NeverTied(policy, queues, o1)
    requires i < |o1| && i < |o2| && o1[..i] == o2[..i]
    ensures o1[i] == o2[i]
  {
    assert BestAt(policy, queues, o1, i) && OnlyBestAt(policy, queues, o1, i) && BestAt(policy, queues, o2, i);
    OneBest(policy, After(queues, o1[..i]), o1[i], o2[i]);
  }

  lemma PrefixSnoc<T>(s: seq<T>, i: nat)
    requires i < |s|
    ensures s[..i + 1] == s[..i] + [s[i]]
  {
  }

  lemma {:induction false} SamePrefix(policy: Policy, queues: Queues, o1: seq<PooledTransaction>,
                                      o2: seq<PooledTransaction>, i: nat)
    requires IsMerging(policy) && Valid(policy)
    requires IsMerge(policy, queues, o1) && IsMerge(policy, queues, o2) && NeverTied(policy, queues, o1)
    requires i <= |o1|
    ensures i <= |o2| && o1[..i] == o2[..i]
    decreases i
  {
    if i > 0 {
      SamePrefix(policy, queues, o1, o2, i - 1);
      if o2 == o2[..i - 1] {
        EndsWhenEmpty(policy, queues, o1, i - 1);
      }
      SameNext(policy, queues, o1, o2, i - 1);
      PrefixSnoc(o1, i - 1);
      PrefixSnoc(o2, i - 1);
    }
  }

  lemma NeverTiedIsUnique(policy: Policy, queues: Queues, o1: seq<PooledTransaction>, o2: seq<PooledTransaction>)
    requires IsMerging(policy) && Valid(policy)
    requires IsMerge(policy, queues, o1) && IsMerge(policy, queues, o2) && NeverTied(policy, queues, o1)
    ensures o1 == o2
  {
    SamePrefix(policy, queues, o1, o2, |o1|);
    assert o1[..|o1|] == o1;
    EndsWhenEmpty(policy, queues, o2, |o1|);
    assert o2[..|o1|] == o2;
  }

  /** No two transactions of different senders tie on the full priority key. */
  ghost predicate NoTies(policy: Policy, txs: seq<PooledTransaction>)
    requires IsMerging(policy) && Valid(policy)
  {
    forall a, b :: a in txs && b in txs && a.tx.from != b.tx.from ==> Better(policy, a, b) || Better(policy, b, a)
  }

  lemma HeadIsInput(policy: Policy, txs: seq<PooledTransaction>, out: seq<PooledTransaction>, i: nat, s: Address)
    requires IsMerging(policy) && Valid(policy) && OrderedBy(policy, txs, out) && i <= |out|
    requires s in After(NonceSorted(Group(txs)), out[..i]) && After(NonceSorted(Group(txs)), out[..i])[s] != []
    ensures After(NonceSorted(Group(txs)), out[..i])[s][0] in txs
    ensures After(NonceSorted(Group(txs)), out[..i])[s][0].tx.from == s
  {
    var queues := NonceSorted(Group(txs));
    EmittedPlusQueued(policy, queues, out, i, s);
    QueueIsSortedBySender(txs, s);
    SortIsPermutation(NonceLess, BySender(txs, s));
    FilterMembers(SentFrom(s), txs);
    var head, queue := After(queues, out[..i])[s][0], QueueOf(queues, s);
    assert head == queue[|BySender(out[..i], s)|];
    assert head in multiset(queue);
    assert head in BySender(txs, s);
    assert SentFrom(s)(head);
  }

  /** Without ties, every order of the hash map gives the same output. */
  lemma OrderIndependent(policy: Policy, txs: seq<PooledTransaction>, o1: seq<PooledTransaction>,
                         o2: seq<PooledTransaction>)
    requires IsMerging(policy) && Valid(policy) && NoTies(policy, txs)
    requires OrderedBy(policy, txs, o1) && OrderedBy(policy, txs, o2)
    ensures o1 == o2
  {
    var queues: Queues := NonceSorted(Group(txs));
    forall i | 0 <= i < |o1| ensures OnlyBestAt(policy, queues, o1, i) {
      var left: Queues := After(queues, o1[..i]);
      assert BestAt(policy, queues, o1, i);
      HeadIsInput(policy, txs, o1, i, o1[i].tx.from);
      forall s | s in left && s != o1[i].tx.from && left[s] != [] ensures Better(policy, o1[i], left[s][0]) {
        HeadIsInput(policy, txs, o1, i, s);
      }
    }
    NeverTiedIsUnique(policy, queues, o1, o2);
  }

  // ---------- exactly when ----------

  lemma {:induction false} BestHeadExists(policy: Policy, queues: Queues, senders: set<Address>)
    returns (best: PooledTransaction)
    requires IsMerging(policy) && Valid(policy) && WellKept(queues)
    requires senders != {} && senders <= queues.Keys
    ensures best.tx.from in senders && queues[best.tx.from][0] == best
    ensures forall s :: s in senders ==> !Better(policy, queues[s][0], best)
    decreases |senders|
  {
    var s: Address :| s in senders;
    var head := queues[s][0];
    BetterIsStrictWeak(policy, head, head, head);
    if senders == {s} {
      best := head;
    } else {
      best := BestHeadExists(policy, queues, senders - {s});
      if Better(policy, head, best) {
        forall t | t in senders - {s} ensures !Better(policy, queues[t][0], head) {
          BetterIsStrictWeak(policy, queues[t][0], best, head);
          BetterIsStrictWeak(policy, head, best, head);
        }
        best := head;
      }
    }
  }

  /** A prefix of best heads extends to a whole merge. */
  lemma {:induction false} MergeExtends(policy: Policy, queues: Queues, prefix: seq<PooledTransaction>)
    returns (out: seq<PooledTransaction>)
    requires IsMerging(policy) && Valid(policy) && WellKept(After(queues, prefix))
    requires AllBest(policy, queues, prefix)
    ensures IsMerge(policy, queues, out) && prefix <= out
    decreases Waiting(After(queues, prefix))
  {
    var left: Queues := After(queues, prefix);
    if left == map[] {
      out := prefix;
    } else {
      var k: Address :| k in left.Keys;
      var best := BestHeadExists(policy, left, left.Keys);
      AllBestSnoc(policy, queues, prefix, best);
      PopKeeps(left, best.tx.from);
      PopShrinks(left, best.tx.from);
      out := MergeExtends(policy, queues, prefix + [best]);
    }
  }

  lemma {:induction false} AfterKeeps(queues: Queues, out: seq<PooledTransaction>)
    requires WellKept(queues)
    ensures WellKept(After(queues, out))
    decreases |out|
  {
    if out != [] {
      AfterKeeps(queues, out[..|out| - 1]);
      PopKeeps(After(queues, out[..|out| - 1]), out[|out| - 1].tx.from);
    }
  }

  lemma AllBestPrefix(policy: Policy, queues: Queues, out: seq<PooledTransaction>, i: nat)
    requires IsMerging(policy) && Valid(policy) && AllBest(policy, queues, out) && i <= |out|
    ensures AllBest(policy, queues, out[..i])
  {
    forall k | 0 <= k < i ensures BestAt(policy, queues, out[..i], k) {
      assert BestAt(policy, queues, out, k);
      BestAtLonger(policy, queues, out, out[..i], k);
    }
  }

  lemma TiedHeadIsBest(policy: Policy, queues: Queues, best: PooledTransaction, s: Address)
    requires IsMerging(policy) && Valid(policy) && WellKept(queues) && IsBestHead(policy, queues, best)
    requires s in queues && !Better(policy, best, queues[s][0])
    ensures IsBestHead(policy, queues, queues[s][0])
  {
    var head := queues[s][0];
    forall t | t in queues && queues[t] != [] ensures !Better(policy, queues[t][0], head) {
      BetterIsStrictWeak(policy, queues[t][0], best, head);
    }
  }

  /** At a tie another merge takes the other head. */
  lemma TieGivesAnother(policy: Policy, queues: Queues, out: seq<PooledTransaction>, i: nat, s: Address)
    returns (other: seq<PooledTransaction>)
    requires IsMerging(policy) && Valid(policy) && WellKept(queues) && IsMerge(policy, queues, out)
    requires i < |out| && s in After(queues, out[..i]) && s != out[i].tx.from
    requires After(queues, out[..i])[s] != [] && !Better(policy, out[i], After(queues, out[..i])[s][0])
    ensures IsMerge(policy, queues, other)
    ensures out[..i] + [After(queues, out[..i])[s][0]] <= other && other != out
  {
    AfterKeeps(queues, out[..i]);
    var left: Queues := After(queues, out[..i]);
    var head := left[s][0];
    assert BestAt(policy, queues, out, i);
    TiedHeadIsBest(policy, left, out[i], s);
    AllBestPrefix(policy, queues, out, i);
    AllBestSnoc(policy, queues, out[..i], head);
    AfterKeeps(queues, out[..i] + [head]);
    other := MergeExtends(policy, queues, out[..i] + [head]);
    assert other[i] == (out[..i] + [head])[i] == head;
    assert head.tx.from == s;
  }

  /** The output is independent of the hash map order exactly when no merge step meets a tie between senders. */
  lemma OrderIndependentIff(policy: Policy, queues: Queues, out: seq<PooledTransaction>)
    requires IsMerging(policy) && Valid(policy) && WellKept(queues) && IsMerge(policy, queues, out)
    ensures (forall other :: IsMerge(policy, queues, other) ==> other == out) <==> NeverTied(policy, queues, out)
  {
    if NeverTied(policy, queues, out) {
      forall other | IsMerge(policy, queues, other) ensures other == out {
        NeverTiedIsUnique(policy, queues, out, other);
      }
    } else {
      var i :| 0 <= i < |out| && !OnlyBestAt(policy, queues, out, i);
      var left: Queues := After(queues, out[..i]);
      var s: Address :| s in left && s != out[i].tx.from && left[s] != [] && !Better(policy, out[i], left[s][0]);
      var other := TieGivesAnother(policy, queues, out, i, s);
    }
  }
}
