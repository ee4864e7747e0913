/**
 * The five scheduling policies.
 *
 * Three of them are greedy merges over a hash map of per-sender queues. A hash map is walked in an
 * arbitrary order, so a merge is a relation between the queues and an output; what is proved of the
 * relation holds for every order.
 */
module Policies {
  import opened Machine
  import opened SequencerTypes
  import opened StableSort

  datatype Policy = Fcfs | FeePriority | TimeBoost(timeWindowMs: u64) | FairBft | BlobPacking

  /** A zero window is a division by zero in the source. */
  predicate Valid(policy: Policy) {
    policy.TimeBoost? ==> policy.timeWindowMs > 0
  }

  predicate IsMerging(policy: Policy) {
    policy.FeePriority? || policy.TimeBoost? || policy.BlobPacking?
  }

  function Boost(ptx: PooledTransaction): u256 {
    match ptx.tx.boostBid case Some(bid) => bid case None => 0
  }

  /** Higher gas price first, then earlier timestamp. */
  predicate PaysBetter(a: PooledTransaction, b: PooledTransaction) {
    a.tx.gasPrice > b.tx.gasPrice || (a.tx.gasPrice == b.tx.gasPrice && a.tx.timestamp < b.tx.timestamp)
  }

  /** The head that replaces the best one seen so far. */
  predicate Better(policy: Policy, a: PooledTransaction, b: PooledTransaction)
    requires IsMerging(policy) && Valid(policy)
  {
    match policy
    case FeePriority => PaysBetter(a, b)
    case TimeBoost(window) =>
      var windowA, windowB := a.tx.timestamp / window, b.tx.timestamp / window;
      windowA < windowB
      || (windowA == windowB && (Boost(a) > Boost(b) || (Boost(a) == Boost(b) && PaysBetter(a, b))))
    case BlobPacking =>
      PooledBytes(a) > PooledBytes(b) || (PooledBytes(a) == PooledBytes(b) && PaysBetter(a, b))
  }

  lemma BetterIsStrictWeak(policy: Policy, a: PooledTransaction, b: PooledTransaction, c: PooledTransaction)
    requires IsMerging(policy) && Valid(policy)
    ensures Better(policy, a, b) ==> !Better(policy, b, a)
    ensures !Better(policy, a, b) && !Better(policy, b, c) ==> !Better(policy, a, c)
  {
  }

  predicate NonceLess(a: PooledTransaction, b: PooledTransaction) {
    a.tx.nonce < b.tx.nonce
  }

  predicate TimestampLess(a: PooledTransaction, b: PooledTransaction) {
    a.tx.timestamp < b.tx.timestamp
  }

  function SentFrom(sender: Address): PooledTransaction -> bool {
    (ptx: PooledTransaction) => ptx.tx.from == sender
  }

  function BySender(txs: seq<PooledTransaction>, sender: Address): seq<PooledTransaction> {
    Filter(SentFrom(sender), txs)
  }

  // ---------- queues ----------

  type Queues = map<Address, seq<PooledTransaction>>

  function QueueOf(queues: Queues, sender: Address): seq<PooledTransaction> {
    if sender in queues then queues[sender] else []
  }

  function Group(txs: seq<PooledTransaction>): Queues
    decreases |txs|
  {
    if txs == [] then map[]
    else
      var rest, tx := Group(txs[..|txs| - 1]), txs[|txs| - 1];
      rest[tx.tx.from := QueueOf(rest, tx.tx.from) + [tx]]
  }

  function NonceSorted(queues: Queues): Queues {
    map sender | sender in queues :: Sort(NonceLess, queues[sender])
  }

  /** Take the head of a sender's queue; an emptied queue leaves the map. */
  function Pop(queues: Queues, sender: Address): Queues {
    if sender !in queues then queues
    else if |queues[sender]| <= 1 then queues - {sender}
    else queues[sender := queues[sender][1..]]
  }

  function After(queues: Queues, emitted: seq<PooledTransaction>): Queues
    decreases |emitted|
  {
    if emitted == [] then queues
    else Pop(After(queues, emitted[..|emitted| - 1]), emitted[|emitted| - 1].tx.from)
  }

  /** A head that no other head beats. */
  ghost predicate IsBestHead(policy: Policy, queues: Queues, tx: PooledTransaction)
    requires IsMerging(policy) && Valid(policy)
  {
    && tx.tx.from in queues && queues[tx.tx.from] != [] && queues[tx.tx.from][0] == tx
    && forall s :: s in queues && queues[s] != [] ==> !Better(policy, queues[s][0], tx)
  }

  ghost predicate BestAt(policy: Policy, queues: Queues, out: seq<PooledTransaction>, i: nat)
    requires IsMerging(policy) && Valid(policy) && i < |out|
  {
    IsBestHead(policy, After(queues, out[..i]), out[i])
  }

  /** Every emitted transaction was a best head of what was left. */
  ghost predicate AllBest(policy: Policy, queues: Queues, out: seq<PooledTransaction>)
    requires IsMerging(policy) && Valid(policy)
  {
    forall i :: 0 <= i < |out| ==> BestAt(policy, queues, out, i)
  }

  ghost predicate IsMerge(policy: Policy, queues: Queues, out: seq<PooledTransaction>)
    requires IsMerging(policy) && Valid(policy)
  {
    After(queues, out) == map[] && AllBest(policy, queues, out)
  }

  lemma AfterSnoc(queues: Queues, out: seq<PooledTransaction>, tx: PooledTransaction)
    ensures After(queues, out + [tx]) == Pop(After(queues, out), tx.tx.from)
  {
    assert (out + [tx])[..|out|] == out;
  }

  /** Being best depends on what was emitted before only. */
  lemma BestAtLonger(policy: Policy, queues: Queues, out: seq<PooledTransaction>, longer: seq<PooledTransaction>,
                     i: nat)
    requires IsMerging(policy) && Valid(policy) && i < |out| && i < |longer| && longer[..i + 1] == out[..i + 1]
    requires BestAt(policy, queues, out, i)
    ensures BestAt(policy, queues, longer, i)
  {
    assert longer[..i] == longer[..i + 1][..i] == out[..i + 1][..i] == out[..i];
    assert longer[i] == longer[..i + 1][i] == out[..i + 1][i] == out[i];
  }

  lemma BestAtEnd(policy: Policy, queues: Queues, out: seq<PooledTransaction>, tx: PooledTransaction)
    requires IsMerging(policy) && Valid(policy) && IsBestHead(policy, After(queues, out), tx)
    ensures BestAt(policy, queues, out + [tx], |out|)
  {
    assert (out + [tx])[..|out|] == out;
  }

  lemma AllBestSnoc(policy: Policy, queues: Queues, out: seq<PooledTransaction>, tx: PooledTransaction)
    requires IsMerging(policy) && Valid(policy)
    requires AllBest(policy, queues, out) && IsBestHead(policy, After(queues, out), tx)
    ensures AllBest(policy, queues, out + [tx])
    ensures After(queues, out + [tx]) == Pop(After(queues, out), tx.tx.from)
  {
    AfterSnoc(queues, out, tx);
    BestAtEnd(policy, queues, out, tx);
    forall i | 0 <= i < |out| ensures BestAt(policy, queues, out + [tx], i) {
      assert BestAt(policy, queues, out, i);
      BestAtLonger(policy, queues, out, out + [tx], i);
    }
  }

  /** What a policy may return; for a merge, one output per way of walking the hash map. */
  ghost predicate OrderedBy(policy: Policy, txs: seq<PooledTransaction>, out: seq<PooledTransaction>)
    requires Valid(policy)
  {
    match policy
    case Fcfs => out == txs
    case FairBft => out == Sort(TimestampLess, txs)
    case _ => IsMerge(policy, NonceSorted(Group(txs)), out)
  }

  /** Queues as the merge keeps them: never empty, and each under its own sender. */
  ghost predicate WellKept(queues: Queues) {
    forall s :: s in queues ==>
      queues[s] != [] && forall i :: 0 <= i < |queues[s]| ==> queues[s][i].tx.from == s
  }

  // ---------- the loops ----------

  method GroupBySender(txs: seq<PooledTransaction>) returns (grouped: Queues)
    ensures grouped == Group(txs)
  {
    grouped := map[];
    for i := 0 to |txs|
      invariant grouped == Group(txs[..i])
    {
      assert txs[..i + 1][..i] == txs[..i];
      var sender := txs[i].tx.from;
      grouped := grouped[sender := QueueOf(grouped, sender) + [txs[i]]];
    }
    assert txs[..|txs|] == txs;
  }

  /** Visits the senders in any order. */
  method SortQueues(queues: Queues) returns (sorted: Queues)
    ensures sorted == NonceSorted(queues)
  {
    sorted := queues;
    var left := queues.Keys;
    while left != {}
      invariant left <= queues.Keys && sorted.Keys == queues.Keys
      invariant forall s :: s in queues ==> sorted[s] == if s in left then queues[s] else Sort(NonceLess, queues[s])
      decreases left
    {
      var s: Address :| s in left;
      sorted := sorted[s := Sort(NonceLess, sorted[s])];
      left := left - {s};
    }
  }

  /** The inner scan: visits the queues in any order and keeps the first that none visited since beats. */
  method BestSender(policy: Policy, queues: Queues) returns (best: Option<PooledTransaction>)
    requires IsMerging(policy) && Valid(policy) && WellKept(queues)
    ensures queues != map[] ==> best.Some? && IsBestHead(policy, queues, best.value)
    ensures queues == map[] ==> best.None?
  {
    best := None;
    var left := queues.Keys;
    while left != {}
      invariant left <= queues.Keys
      invariant best.None? ==> left == queues.Keys
      invariant best.Some? ==>
        && best.value.tx.from in queues && queues[best.value.tx.from][0] == best.value
        && forall s :: s in queues && s !in left ==> !Better(policy, queues[s][0], best.value)
      decreases left
    {
      var s: Address :| s in left;
      var next := queues[s][0];
      BetterIsStrictWeak(policy, next, next, next);
      if best.None? {
        best := Some(next);
      } else if Better(policy, next, best.value) {
        forall t | t in queues && t !in left ensures !Better(policy, queues[t][0], next) {
          BetterIsStrictWeak(policy, queues[t][0], best.value, next);
          BetterIsStrictWeak(policy, next, best.value, next);
        }
        best := Some(next);
      }
      left := left - {s};
    }
    if queues != map[] {
      var s: Address :| s in queues.Keys;
      assert best.Some?;
    }
  }

  lemma PopKeeps(queues: Queues, sender: Address)
    requires WellKept(queues)
    ensures WellKept(Pop(queues, sender))
  {
  }

  ghost function Waiting(queues: Queues): nat
    decreases |queues|
  {
    if queues == map[] then 0
    else var s: Address :| s in queues; |queues[s]| + Waiting(queues - {s})
  }

  lemma {:induction false} WaitingWithout(queues: Queues, s: Address)
    requires s in queues
    ensures Waiting(queues) == |queues[s]| + Waiting(queues - {s})
    decreases |queues|
  {
    var t: Address :| t in queues && Waiting(queues) == |queues[t]| + Waiting(queues - {t});
    if s != t {
      WaitingWithout(queues - {t}, s);
      WaitingWithout(queues - {s}, t);
      assert queues - {s} - {t} == queues - {t} - {s};
    }
  }

  lemma PopShrinks(queues: Queues, s: Address)
    requires s in queues && queues[s] != []
    ensures Waiting(Pop(queues, s)) < Waiting(queues)
  {
    WaitingWithout(queues, s);
    if |queues[s]| > 1 {
      WaitingWithout(Pop(queues, s), s);
      assert Pop(queues, s) - {s} == queues - {s};
    }
  }

  method GreedyMerge(policy: Policy, queues: Queues) returns (ordered: seq<PooledTransaction>)
    requires IsMerging(policy) && Valid(policy) && WellKept(queues)
    ensures IsMerge(policy, queues, ordered)
  {
    ordered := [];
    var grouped := queues;
    while grouped != map[]
      invariant grouped == After(queues, ordered) && WellKept(grouped)
      invariant AllBest(policy, queues, ordered)
      decreases Waiting(grouped)
    {
      var best := BestSender(policy, grouped);
      if best.None? {
        break;
      }
      var tx := best.value;
      PopKeeps(grouped, tx.tx.from);
      PopShrinks(grouped, tx.tx.from);
      AllBestSnoc(policy, queues, ordered, tx);
      ordered := ordered + [tx];
      grouped := Pop(grouped, tx.tx.from);
    }
  }

  method OrderTransactions(policy: Policy, txs: seq<PooledTransaction>) returns (ordered: seq<PooledTransaction>)
    requires Valid(policy)
    ensures OrderedBy(policy, txs, ordered)
  {
    match policy {
      case Fcfs => ordered := txs;
      case FairBft => ordered := Sort(TimestampLess, txs);
      case _ =>
        var grouped := GroupBySender(txs);
        grouped := SortQueues(grouped);
        QueuesWellKept(txs);
        ordered := GreedyMerge(policy, grouped);
    }
  }

  // ---------- the queues that a merge starts from ----------

  lemma {:induction false} GroupIsBySender(txs: seq<PooledTransaction>, sender: Address)
    ensures QueueOf(Group(txs), sender) == BySender(txs, sender)
    ensures sender in Group(txs) ==> Group(txs)[sender] != []
    decreases |txs|
  {
    if txs != [] {
      GroupIsBySender(txs[..|txs| - 1], sender);
    }
  }

  /** A sender's queue is its transactions by nonce, equal nonces in input order. */
  lemma QueueIsSortedBySender(txs: seq<PooledTransaction>, sender: Address)
    ensures QueueOf(NonceSorted(Group(txs)), sender) == Sort(NonceLess, BySender(txs, sender))
  {
    GroupIsBySender(txs, sender);
  }

  lemma QueuesWellKept(txs: seq<PooledTransaction>)
    ensures WellKept(NonceSorted(Group(txs)))
  {
    var queues: Queues := NonceSorted(Group(txs));
    forall s | s in queues
      ensures queues[s] != [] && forall i :: 0 <= i < |queues[s]| ==> queues[s][i].tx.from == s
    {
      GroupIsBySender(txs, s);
      SortIsPermutation(NonceLess, BySender(txs, s));
      FilterMembers(SentFrom(s), txs);
      forall i | 0 <= i < |queues[s]| ensures queues[s][i].tx.from == s {
        assert queues[s][i] in multiset(queues[s]);
        assert queues[s][i] in BySender(txs, s);
        assert SentFrom(s)(queues[s][i]);
      }
    }
  }
}
