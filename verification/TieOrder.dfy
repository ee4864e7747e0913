/**
 * Which orders a merge guarantees, and what becomes of ties.
 *
 * Of two senders, the one's p-th transaction leaves before the other's q-th in every walk of the hash map
 * exactly when some transaction up to the other's q-th loses to everything up to the one's p-th. The
 * policies are documented to fall back on arrival order; this says exactly when they do.
 */
module TieOrder {
  import opened Machine
  import opened SequencerTypes
  import opened StableSort
  import opened Policies
  import opened PolicyProperties

  // ---------- leading ----------

  /** How many of the sender's transactions are among the first `k`. */
  function Emitted(out: seq<PooledTransaction>, k: nat, sender: Address): nat
    requires k <= |out|
  {
    |BySender(out[..k], sender)|
  }

  ghost predicate LeadsAt(out: seq<PooledTransaction>, s: Address, p: nat, t: Address, q: nat, k: nat)
    requires k <= |out|
  {
    Emitted(out, k, s) > p && Emitted(out, k, t) <= q
  }

  /** The p-th transaction of `s` comes out before the q-th of `t`, counting from zero. */
  ghost predicate Leads(out: seq<PooledTransaction>, s: Address, p: nat, t: Address, q: nat) {
    exists k :: 0 <= k <= |out| && LeadsAt(out, s, p, t, q, k)
  }

  lemma EmittedStep(out: seq<PooledTransaction>, k: nat, s: Address)
    requires k < |out|
    ensures Emitted(out, k + 1, s) == Emitted(out, k, s) + if out[k].tx.from == s then 1 else 0
  {
    BySenderPrefix(out, k, s);
  }

  lemma {:induction false} EmittedGrows(out: seq<PooledTransaction>, j: nat, k: nat, s: Address)
    requires j <= k <= |out|
    ensures Emitted(out, j, s) <= Emitted(out, k, s)
    decreases k
  {
    if j < k {
      EmittedGrows(out, j, k - 1, s);
      EmittedStep(out, k - 1, s);
    }
  }

  lemma OneLeads(out: seq<PooledTransaction>, s: Address, p: nat, t: Address, q: nat)
    requires Leads(out, s, p, t, q)
    ensures !Leads(out, t, q, s, p)
  {
    var j :| 0 <= j <= |out| && LeadsAt(out, s, p, t, q, j);
    forall k | 0 <= k <= |out| ensures !LeadsAt(out, t, q, s, p, k) {
      if j <= k {
        EmittedGrows(out, j, k, s);
      } else {
        EmittedGrows(out, k, j, t);
      }
    }
  }

  lemma NoneEmitted(out: seq<PooledTransaction>, s: Address)
    ensures Emitted(out, 0, s) == 0
  {
    assert out[..0] == [];
  }

  /** The step at which the sender's p-th transaction comes out. */
  lemma {:induction false} MomentOf(out: seq<PooledTransaction>, n: nat, s: Address, p: nat) returns (k: nat)
    requires n <= |out| && p < Emitted(out, n, s)
    ensures k < n && out[k].tx.from == s && Emitted(out, k, s) == p
    decreases n
  {
    k := 0;
    NoneEmitted(out, s);
    if n > 0 {
      EmittedStep(out, n - 1, s);
      if p < Emitted(out, n - 1, s) {
        k := MomentOf(out, n - 1, s, p);
      } else {
        k := n - 1;
      }
    }
  }

  // ---------- the condition ----------

  /** Everything up to the p-th transaction of the queue beats `x`. */
  ghost predicate AllBeat(policy: Policy, queue: seq<PooledTransaction>, p: nat, x: PooledTransaction)
    requires IsMerging(policy) && Valid(policy) && p < |queue|
  {
    forall i :: 0 <= i <= p ==> Better(policy, queue[i], x)
  }

  /** Some transaction up to the q-th of `behind` loses to everything up to the p-th of `front`. */
  ghost predicate Ahead(policy: Policy, front: seq<PooledTransaction>, p: nat, behind: seq<PooledTransaction>, q: nat)
    requires IsMerging(policy) && Valid(policy) && p < |front| && q < |behind|
  {
    exists j :: 0 <= j <= q && AllBeat(policy, front, p, behind[j])
  }

  // ---------- it is enough ----------

  /** What is left of a sender's queue once `k` transactions are out. */
  lemma LeftOf(policy: Policy, queues: Queues, out: seq<PooledTransaction>, k: nat, s: Address)
    requires IsMerging(policy) && Valid(policy) && AllBest(policy, queues, out) && k <= |out|
    ensures Emitted(out, k, s) <= |QueueOf(queues, s)|
    ensures QueueOf(After(queues, out[..k]), s) == QueueOf(queues, s)[Emitted(out, k, s)..]
  {
    EmittedPlusQueued(policy, queues, out, k, s);
  }

  lemma HeadOf(policy: Policy, queues: Queues, out: seq<PooledTransaction>, k: nat, s: Address)
    requires IsMerging(policy) && Valid(policy) && AllBest(policy, queues, out) && k <= |out|
    requires Emitted(out, k, s) < |QueueOf(queues, s)|
    ensures var left := After(queues, out[..k]);
            s in left && left[s] != [] && left[s][0] == QueueOf(queues, s)[Emitted(out, k, s)]
  {
    LeftOf(policy, queues, out, k, s);
  }

  lemma AllEmitted(policy: Policy, queues: Queues, out: seq<PooledTransaction>, s: Address)
    requires IsMerging(policy) && Valid(policy) && IsMerge(policy, queues, out)
    ensures Emitted(out, |out|, s) == |QueueOf(queues, s)|
  {
    LeftOf(policy, queues, out, |out|, s);
    assert out[..|out|] == out;
  }

  lemma NotBeaten(policy: Policy, queues: Queues, out: seq<PooledTransaction>, k: nat, s: Address)
    requires IsMerging(policy) && Valid(policy) && AllBest(policy, queues, out) && k < |out|
    requires Emitted(out, k, s) < |QueueOf(queues, s)|
    ensures !Better(policy, QueueOf(queues, s)[Emitted(out, k, s)], out[k])
  {
    HeadOf(policy, queues, out, k, s);
    assert BestAt(policy, queues, out, k);
  }

  lemma AheadLeads(policy: Policy, queues: Queues, out: seq<PooledTransaction>, s: Address, p: nat, t: Address, q: nat)
    requires IsMerging(policy) && Valid(policy) && IsMerge(policy, queues, out)
    requires p < |QueueOf(queues, s)| && q < |QueueOf(queues, t)|
    requires Ahead(policy, QueueOf(queues, s), p, QueueOf(queues, t), q)
    ensures Leads(out, s, p, t, q)
  {
    var front, behind := QueueOf(queues, s), QueueOf(queues, t);
    var j :| 0 <= j <= q && AllBeat(policy, front, p, behind[j]);
    AllEmitted(policy, queues, out, t);
    var k := MomentOf(out, |out|, t, j);
    HeadOf(policy, queues, out, k, t);
    EmittedIsHead(policy, queues, out, k);
    assert out[k] == behind[j] && BestAt(policy, queues, out, k);
    if Emitted(out, k, s) <= p {
      NotBeaten(policy, queues, out, k, s);
    }
    assert LeadsAt(out, s, p, t, q, k);
  }

  // ---------- and needed ----------

  /** A transaction up to the q-th that is no better than any other of them. */
  lemma {:induction false} WorstOf(policy: Policy, queue: seq<PooledTransaction>, q: nat) returns (w: nat)
    requires IsMerging(policy) && Valid(policy) && q < |queue|
    ensures w <= q && forall j :: 0 <= j <= q ==> !Better(policy, queue[w], queue[j])
    decreases q
  {
    BetterIsStrictWeak(policy, queue[q], queue[q], queue[q]);
    if q == 0 {
      w := 0;
    } else {
      w := WorstOf(policy, queue, q - 1);
      if Better(policy, queue[w], queue[q]) {
        forall j | 0 <= j <= q ensures !Better(policy, queue[q], queue[j]) {
          BetterIsStrictWeak(policy, queue[q], queue[w], queue[j]);
          BetterIsStrictWeak(policy, queue[w], queue[q], queue[w]);
        }
        w := q;
      }
    }
  }

  /** Without the condition, one transaction up to the p-th beats none up to the q-th. */
  lemma Laggard(policy: Policy, front: seq<PooledTransaction>, p: nat, behind: seq<PooledTransaction>, q: nat)
    returns (i: nat)
    requires IsMerging(policy) && Valid(policy) && p < |front| && q < |behind| && !Ahead(policy, front, p, behind, q)
    ensures i <= p && forall j :: 0 <= j <= q ==> !Better(policy, front[i], behind[j])
  {
    var w := WorstOf(policy, behind, q);
    assert !AllBeat(policy, front, p, behind[w]);
    i :| 0 <= i <= p && !Better(policy, front[i], behind[w]);
    forall j | 0 <= j <= q ensures !Better(policy, front[i], behind[j]) {
      BetterIsStrictWeak(policy, front[i], behind[w], behind[j]);
    }
  }

  /** A prefix of a merge in which `s` has not passed its i-th and `t` not its q-th transaction. */
  ghost predicate HeldBack(policy: Policy, queues: Queues, out: seq<PooledTransaction>, s: Address, i: nat,
                           t: Address, q: nat)
    requires IsMerging(policy) && Valid(policy)
  {
    && AllBest(policy, queues, out) && WellKept(After(queues, out))
    && Emitted(out, |out|, s) <= i && Emitted(out, |out|, t) <= q
  }

  lemma Latest(policy: Policy, queues: Queues, out: seq<PooledTransaction>, s: Address)
    requires IsMerging(policy) && Valid(policy) && AllBest(policy, queues, out)
    requires Emitted(out, |out|, s) < |QueueOf(queues, s)|
    ensures s in After(queues, out) && After(queues, out)[s] != []
    ensures After(queues, out)[s][0] == QueueOf(queues, s)[Emitted(out, |out|, s)]
  {
    HeadOf(policy, queues, out, |out|, s);
    assert out[..|out|] == out;
  }

  /** The next head that keeps `s` back: any best one, but the head of `t` where that of `s` would be next. */
  lemma NextHeldBack(policy: Policy, queues: Queues, out: seq<PooledTransaction>, s: Address, i: nat,
                     t: Address, q: nat)
    returns (best: PooledTransaction)
    requires IsMerging(policy) && Valid(policy) && s != t && HeldBack(policy, queues, out, s, i, t, q)
    requires i < |QueueOf(queues, s)| && q < |QueueOf(queues, t)|
    requires forall j :: 0 <= j <= q ==> !Better(policy, QueueOf(queues, s)[i], QueueOf(queues, t)[j])
    ensures IsBestHead(policy, After(queues, out), best)
    ensures best.tx.from == s ==> Emitted(out, |out|, s) < i
  {
    var left: Queues := After(queues, out);
    Latest(policy, queues, out, t);
    best := BestHeadExists(policy, left, left.Keys);
    if best.tx.from == s && Emitted(out, |out|, s) == i {
      Latest(policy, queues, out, s);
      TiedHeadIsBest(policy, left, best, t);
      best := left[t][0];
    }
  }

  lemma EmittedSnoc(out: seq<PooledTransaction>, tx: PooledTransaction, s: Address)
    ensures Emitted(out + [tx], |out| + 1, s) == Emitted(out, |out|, s) + if tx.tx.from == s then 1 else 0
  {
    assert (out + [tx])[..|out| + 1] == out + [tx] && out[..|out|] == out;
    BySenderSnoc(out, tx, s);
  }

  /** `s` can be kept at its i-th transaction until `t` is past its q-th. */
  lemma {:induction false} HoldBack(policy: Policy, queues: Queues, out: seq<PooledTransaction>, s: Address, i: nat,
                                    t: Address, q: nat)
    returns (more: seq<PooledTransaction>)
    requires IsMerging(policy) && Valid(policy) && s != t && HeldBack(policy, queues, out, s, i, t, q)
    requires i < |QueueOf(queues, s)| && q < |QueueOf(queues, t)|
    requires forall j :: 0 <= j <= q ==> !Better(policy, QueueOf(queues, s)[i], QueueOf(queues, t)[j])
    ensures AllBest(policy, queues, more) && WellKept(After(queues, more))
    ensures Emitted(more, |more|, s) <= i && Emitted(more, |more|, t) > q
    decreases Waiting(After(queues, out))
  {
    var best := NextHeldBack(policy, queues, out, s, i, t, q);
    var next := out + [best];
    AllBestSnoc(policy, queues, out, best);
    PopKeeps(After(queues, out), best.tx.from);
    PopShrinks(After(queues, out), best.tx.from);
    EmittedSnoc(out, best, s);
    EmittedSnoc(out, best, t);
    if Emitted(next, |next|, t) > q {
      more := next;
    } else {
      more := HoldBack(policy, queues, next, s, i, t, q);
    }
  }

  lemma PrefixBlocksLead(out: seq<PooledTransaction>, more: seq<PooledTransaction>, s: Address, p: nat,
                         t: Address, q: nat)
    requires more <= out && Emitted(more, |more|, s) <= p && Emitted(more, |more|, t) > q
    ensures !Leads(out, s, p, t, q)
  {
    assert out[..|more|] == more == more[..|more|];
    forall k | 0 <= k <= |out| ensures !LeadsAt(out, s, p, t, q, k) {
      if k <= |more| {
        EmittedGrows(out, k, |more|, s);
      } else {
        EmittedGrows(out, |more|, k, t);
      }
    }
  }

  lemma NotAheadNeedNotLead(policy: Policy, queues: Queues, s: Address, p: nat, t: Address, q: nat)
    returns (out: seq<PooledTransaction>)
    requires IsMerging(policy) && Valid(policy) && WellKept(queues) && s != t
    requires p < |QueueOf(queues, s)| && q < |QueueOf(queues, t)|
    requires !Ahead(policy, QueueOf(queues, s), p, QueueOf(queues, t), q)
    ensures IsMerge(policy, queues, out) && !Leads(out, s, p, t, q)
  {
    var i := Laggard(policy, QueueOf(queues, s), p, QueueOf(queues, t), q);
    assert BySender([], s) == [] && BySender([], t) == [];
    var more := HoldBack(policy, queues, [], s, i, t, q);
    out := MergeExtends(policy, queues, more);
    PrefixBlocksLead(out, more, s, p, t, q);
  }

  /** One transaction leaves before another in every walk of the hash map exactly when its queue is ahead. */
  lemma AlwaysLeadsIff(policy: Policy, queues: Queues, s: Address, p: nat, t: Address, q: nat)
    requires IsMerging(policy) && Valid(policy) && WellKept(queues) && s != t
    requires p < |QueueOf(queues, s)| && q < |QueueOf(queues, t)|
    ensures (forall out :: IsMerge(policy, queues, out) ==> Leads(out, s, p, t, q))
            <==> Ahead(policy, QueueOf(queues, s), p, QueueOf(queues, t), q)
  {
    if Ahead(policy, QueueOf(queues, s), p, QueueOf(queues, t), q) {
      forall out | IsMerge(policy, queues, out) ensures Leads(out, s, p, t, q) {
        AheadLeads(policy, queues, out, s, p, t, q);
      }
    } else {
      var out := NotAheadNeedNotLead(policy, queues, s, p, t, q);
    }
  }

  // ---------- one output ----------

  /** These two, if they exist, are in an order that all walks agree on. */
  ghost predicate Decided(policy: Policy, queues: Queues, s: Address, p: nat, t: Address, q: nat)
    requires IsMerging(policy) && Valid(policy)
  {
    s != t && p < |QueueOf(queues, s)| && q < |QueueOf(queues, t)| ==>
      || Ahead(policy, QueueOf(queues, s), p, QueueOf(queues, t), q)
      || Ahead(policy, QueueOf(queues, t), q, QueueOf(queues, s), p)
  }

  ghost predicate AllDecided(policy: Policy, queues: Queues)
    requires IsMerging(policy) && Valid(policy)
  {
    forall s, p, t, q :: Decided(policy, queues, s, p, t, q)
  }

  lemma EarlierLeads(out: seq<PooledTransaction>, s: Address, p: nat, j: nat, t: Address, q: nat, k: nat)
    requires j < k < |out| && s != t
    requires out[j].tx.from == s && Emitted(out, j, s) == p && Emitted(out, k, t) == q
    ensures Leads(out, s, p, t, q)
  {
    EmittedStep(out, j, s);
    EmittedGrows(out, j + 1, k, t);
    assert LeadsAt(out, s, p, t, q, j + 1);
  }

  lemma SomeLeads(policy: Policy, queues: Queues, out: seq<PooledTransaction>, s: Address, p: nat, t: Address, q: nat)
    requires IsMerging(policy) && Valid(policy) && IsMerge(policy, queues, out) && s != t
    requires p < |QueueOf(queues, s)| && q < |QueueOf(queues, t)|
    ensures Leads(out, s, p, t, q) || Leads(out, t, q, s, p)
  {
    AllEmitted(policy, queues, out, s);
    AllEmitted(policy, queues, out, t);
    var j := MomentOf(out, |out|, s, p);
    var k := MomentOf(out, |out|, t, q);
    if j < k {
      EarlierLeads(out, s, p, j, t, q, k);
    } else {
      EarlierLeads(out, t, q, k, s, p, j);
    }
  }

  /** Two merges part where one takes the head of `s` and the other that of `t`. */
  lemma PartingLeads(policy: Policy, queues: Queues, o1: seq<PooledTransaction>, o2: seq<PooledTransaction>, k: nat)
    requires IsMerging(policy) && Valid(policy) && AllBest(policy, queues, o1) && AllBest(policy, queues, o2)
    requires k < |o1| && k < |o2| && o1[..k] == o2[..k] && o1[k] != o2[k]
    ensures var s, t := o1[k].tx.from, o2[k].tx.from;
            var p, q := Emitted(o1, k, s), Emitted(o1, k, t);
            && s != t && p < |QueueOf(queues, s)| && q < |QueueOf(queues, t)|
            && Leads(o1, s, p, t, q) && Leads(o2, t, q, s, p)
  {
    var s, t := o1[k].tx.from, o2[k].tx.from;
    EmittedIsHead(policy, queues, o1, k);
    EmittedIsHead(policy, queues, o2, k);
    LeftOf(policy, queues, o1, k, s);
    LeftOf(policy, queues, o1, k, t);
    EmittedStep(o1, k, s);
    EmittedStep(o1, k, t);
    EmittedStep(o2, k, s);
    EmittedStep(o2, k, t);
    assert LeadsAt(o1, s, Emitted(o1, k, s), t, Emitted(o1, k, t), k + 1);
    assert LeadsAt(o2, t, Emitted(o1, k, t), s, Emitted(o1, k, s), k + 1);
  }

  lemma {:induction false} DecidedPrefix(policy: Policy, queues: Queues, o1: seq<PooledTransaction>,
                                         o2: seq<PooledTransaction>, k: nat)
    requires IsMerging(policy) && Valid(policy) && IsMerge(policy, queues, o1) && IsMerge(policy, queues, o2)
    requires AllDecided(policy, queues)
    requires k <= |o1|
    ensures k <= |o2| && o1[..k] == o2[..k]
    decreases k
  {
    if k > 0 {
      DecidedPrefix(policy, queues, o1, o2, k - 1);
      if o2 == o2[..k - 1] {
        EndsWhenEmpty(policy, queues, o1, k - 1);
      }
      if o1[k - 1] != o2[k - 1] {
        Contradicted(policy, queues, o1, o2, k - 1);
      }
      PrefixSnoc(o1, k - 1);
      PrefixSnoc(o2, k - 1);
    }
  }

  lemma Contradicted(policy: Policy, queues: Queues, o1: seq<PooledTransaction>, o2: seq<PooledTransaction>, k: nat)
    requires IsMerging(policy) && Valid(policy) && IsMerge(policy, queues, o1) && IsMerge(policy, queues, o2)
    requires k < |o1| && k < |o2| && o1[..k] == o2[..k] && o1[k] != o2[k]
    ensures !AllDecided(policy, queues)
  {
    PartingLeads(policy, queues, o1, o2, k);
    var s, t := o1[k].tx.from, o2[k].tx.from;
    var p, q := Emitted(o1, k, s), Emitted(o1, k, t);
    OneLeads(o1, s, p, t, q);
    OneLeads(o2, t, q, s, p);
    if Ahead(policy, QueueOf(queues, s), p, QueueOf(queues, t), q) {
      AheadLeads(policy, queues, o2, s, p, t, q);
    }
    if Ahead(policy, QueueOf(queues, t), q, QueueOf(queues, s), p) {
      AheadLeads(policy, queues, o1, t, q, s, p);
    }
    assert !Decided(policy, queues, s, p, t, q);
  }

  lemma DecidedIsUnique(policy: Policy, queues: Queues, o1: seq<PooledTransaction>, o2: seq<PooledTransaction>)
    requires IsMerging(policy) && Valid(policy) && IsMerge(policy, queues, o1) && IsMerge(policy, queues, o2)
    requires AllDecided(policy, queues)
    ensures o1 == o2
  {
    DecidedPrefix(policy, queues, o1, o2, |o1|);
    DecidedPrefix(policy, queues, o2, o1, |o2|);
    assert o1[..|o1|] == o1 && o2[..|o2|] == o2;
  }

  lemma UndecidedHasTwo(policy: Policy, queues: Queues) returns (o1: seq<PooledTransaction>, o2: seq<PooledTransaction>)
    requires IsMerging(policy) && Valid(policy) && WellKept(queues) && !AllDecided(policy, queues)
    ensures IsMerge(policy, queues, o1) && IsMerge(policy, queues, o2) && o1 != o2
  {
    var s, p, t, q :| !Decided(policy, queues, s, p, t, q);
    o1 := NotAheadNeedNotLead(policy, queues, s, p, t, q);
    o2 := NotAheadNeedNotLead(policy, queues, t, q, s, p);
    SomeLeads(policy, queues, o1, s, p, t, q);
  }

  /** Every walk of the hash map gives the same output exactly when every two transactions are decided. */
  lemma UniqueIffDecided(policy: Policy, txs: seq<PooledTransaction>)
    requires IsMerging(policy) && Valid(policy)
    ensures (forall o1, o2 :: OrderedBy(policy, txs, o1) && OrderedBy(policy, txs, o2) ==> o1 == o2)
            <==> AllDecided(policy, NonceSorted(Group(txs)))
  {
    var queues: Queues := NonceSorted(Group(txs));
    if AllDecided(policy, queues) {
      forall o1, o2 | OrderedBy(policy, txs, o1) && OrderedBy(policy, txs, o2) ensures o1 == o2 {
        DecidedIsUnique(policy, queues, o1, o2);
      }
    } else {
      QueuesWellKept(txs);
      var o1, o2 := UndecidedHasTwo(policy, queues);
      assert OrderedBy(policy, txs, o1) && OrderedBy(policy, txs, o2);
    }
  }

  // ---------- arrival ----------

  /** A sender's transactions as the merge queues them: by nonce, equal nonces in input order. */
  function Queue(txs: seq<PooledTransaction>, s: Address): seq<PooledTransaction> {
    Sort(NonceLess, BySender(txs, s))
  }

  function IndexedNonceLess(txs: seq<PooledTransaction>): (nat, nat) -> bool {
    (i: nat, j: nat) => i < |txs| && j < |txs| && NonceLess(txs[i], txs[j])
  }

  /** The positions of the sender's transactions among the first `n` inputs. */
  function PositionsOf(txs: seq<PooledTransaction>, n: nat, s: Address): seq<nat>
    requires n <= |txs|
  {
    if n == 0 then [] else PositionsOf(txs, n - 1, s) + if txs[n - 1].tx.from == s then [n - 1] else []
  }

  /** Where each transaction of the sender's queue stood in the input. */
  function Arrivals(txs: seq<PooledTransaction>, s: Address): seq<nat> {
    Sort(IndexedNonceLess(txs), PositionsOf(txs, |txs|, s))
  }

  ghost predicate PointTo(txs: seq<PooledTransaction>, positions: seq<nat>, queue: seq<PooledTransaction>) {
    && |positions| == |queue|
    && forall k :: 0 <= k < |queue| ==> positions[k] < |txs| && txs[positions[k]] == queue[k]
  }

  lemma {:induction false} PositionsPoint(txs: seq<PooledTransaction>, n: nat, s: Address)
    requires n <= |txs|
    ensures PointTo(txs, PositionsOf(txs, n, s), BySender(txs[..n], s))
    decreases n
  {
    if n > 0 {
      PositionsPoint(txs, n - 1, s);
      BySenderPrefix(txs, n - 1, s);
    } else {
      assert txs[..0] == [];
    }
  }

  lemma {:induction false} InsertPoints(txs: seq<PooledTransaction>, i: nat, positions: seq<nat>,
                                        queue: seq<PooledTransaction>)
    requires PointTo(txs, positions, queue) && i < |txs|
    ensures PointTo(txs, Insert(IndexedNonceLess(txs), i, positions), Insert(NonceLess, txs[i], queue))
    decreases |queue|
  {
    if queue != [] && !NonceLess(txs[i], queue[0]) {
      InsertPoints(txs, i, positions[1..], queue[1..]);
    }
  }

  lemma {:induction false} SortPoints(txs: seq<PooledTransaction>, positions: seq<nat>, queue: seq<PooledTransaction>)
    requires PointTo(txs, positions, queue)
    ensures PointTo(txs, Sort(IndexedNonceLess(txs), positions), Sort(NonceLess, queue))
    decreases |queue|
  {
    if queue != [] {
      var n := |queue| - 1;
      SortPoints(txs, positions[..n], queue[..n]);
      InsertPoints(txs, positions[n], Sort(IndexedNonceLess(txs), positions[..n]), Sort(NonceLess, queue[..n]));
    }
  }

  lemma ArrivalsPoint(txs: seq<PooledTransaction>, s: Address)
    ensures PointTo(txs, Arrivals(txs, s), Queue(txs, s))
  {
    PositionsPoint(txs, |txs|, s);
    assert txs[..|txs|] == txs;
    SortPoints(txs, PositionsOf(txs, |txs|, s), BySender(txs, s));
  }

  lemma {:induction false} PositionsCover(txs: seq<PooledTransaction>, n: nat, i: nat)
    requires i < n <= |txs|
    ensures i in PositionsOf(txs, n, txs[i].tx.from)
    decreases n
  {
    if i < n - 1 {
      PositionsCover(txs, n - 1, i);
    }
  }

  /** Every input has its place in its sender's queue. */
  lemma ArrivalsCover(txs: seq<PooledTransaction>, i: nat)
    requires i < |txs|
    ensures i in Arrivals(txs, txs[i].tx.from)
  {
    PositionsCover(txs, |txs|, i);
    SortIsPermutation(IndexedNonceLess(txs), PositionsOf(txs, |txs|, txs[i].tx.from));
    assert i in multiset(PositionsOf(txs, |txs|, txs[i].tx.from));
    assert i in multiset(Arrivals(txs, txs[i].tx.from));
  }

  /** The documented ranking key, without the time stamp that the code compares last. */
  ghost predicate SameKey(policy: Policy, a: PooledTransaction, b: PooledTransaction)
    requires IsMerging(policy) && Valid(policy)
  {
    && a.tx.gasPrice == b.tx.gasPrice
    && (policy.TimeBoost? ==>
          a.tx.timestamp / policy.timeWindowMs == b.tx.timestamp / policy.timeWindowMs && Boost(a) == Boost(b))
    && (policy.BlobPacking? ==> PooledBytes(a) == PooledBytes(b))
  }

  lemma SameKeyByTime(policy: Policy, a: PooledTransaction, b: PooledTransaction)
    requires IsMerging(policy) && Valid(policy) && SameKey(policy, a, b)
    ensures Better(policy, a, b) <==> a.tx.timestamp < b.tx.timestamp
  {
  }

  /** Two transactions of different senders, tied on the documented key, the first of which arrived first. */
  ghost predicate TiedInOrder(policy: Policy, txs: seq<PooledTransaction>, s: Address, p: nat, t: Address, q: nat)
    requires IsMerging(policy) && Valid(policy)
  {
    && s != t && p < |Queue(txs, s)| && q < |Queue(txs, t)|
    && p < |Arrivals(txs, s)| && q < |Arrivals(txs, t)| && Arrivals(txs, s)[p] < Arrivals(txs, t)[q]
    && SameKey(policy, Queue(txs, s)[p], Queue(txs, t)[q])
  }

  /** Ties come out as they arrived. */
  ghost predicate KeepsArrival(policy: Policy, txs: seq<PooledTransaction>, out: seq<PooledTransaction>)
    requires IsMerging(policy) && Valid(policy)
  {
    forall s, p, t, q :: TiedInOrder(policy, txs, s, p, t, q) ==> Leads(out, s, p, t, q)
  }

  lemma InputLeadsIff(policy: Policy, txs: seq<PooledTransaction>, s: Address, p: nat, t: Address, q: nat)
    requires IsMerging(policy) && Valid(policy) && s != t && p < |Queue(txs, s)| && q < |Queue(txs, t)|
    ensures (forall out :: OrderedBy(policy, txs, out) ==> Leads(out, s, p, t, q))
            <==> Ahead(policy, Queue(txs, s), p, Queue(txs, t), q)
  {
    QueuesWellKept(txs);
    QueueIsSortedBySender(txs, s);
    QueueIsSortedBySender(txs, t);
    AlwaysLeadsIff(policy, NonceSorted(Group(txs)), s, p, t, q);
  }

  /** Ties keep arrival order in every walk exactly when each earlier arrival's queue is ahead of the later one's. */
  lemma TiesKeepArrivalIff(policy: Policy, txs: seq<PooledTransaction>)
    requires IsMerging(policy) && Valid(policy)
    ensures (forall out :: OrderedBy(policy, txs, out) ==> KeepsArrival(policy, txs, out))
            <==> forall s, p, t, q :: TiedInOrder(policy, txs, s, p, t, q) ==>
                   Ahead(policy, Queue(txs, s), p, Queue(txs, t), q)
  {
    forall s, p, t, q | TiedInOrder(policy, txs, s, p, t, q)
      ensures (forall out :: OrderedBy(policy, txs, out) ==> Leads(out, s, p, t, q))
              <==> Ahead(policy, Queue(txs, s), p, Queue(txs, t), q)
    {
      InputLeadsIff(policy, txs, s, p, t, q);
    }
  }

  // ---------- a cheaper head ----------

  lemma ThreeQueues(a1: PooledTransaction, a2: PooledTransaction, b: PooledTransaction)
    requires a1.tx.from == a2.tx.from != b.tx.from && a1.tx.nonce < a2.tx.nonce
    ensures Queue([a1, a2, b], a1.tx.from) == [a1, a2] && Queue([a1, a2, b], b.tx.from) == [b]
  {
    var txs, s, t := [a1, a2, b], a1.tx.from, b.tx.from;
    BySenderPrefix(txs, 0, s);
    BySenderPrefix(txs, 1, s);
    BySenderPrefix(txs, 2, s);
    BySenderPrefix(txs, 0, t);
    BySenderPrefix(txs, 1, t);
    BySenderPrefix(txs, 2, t);
    assert txs[..0] == [] && txs[..3] == txs;
    assert BySender(txs, s) == [a1, a2] && BySender(txs, t) == [b];
    SortOfSorted(NonceLess, [a1, a2]);
    SortOfSorted(NonceLess, [b]);
  }

  lemma ThreeArrivals(a1: PooledTransaction, a2: PooledTransaction, b: PooledTransaction)
    requires a1.tx.from == a2.tx.from != b.tx.from && a1.tx.nonce < a2.tx.nonce
    ensures var s, t := Arrivals([a1, a2, b], a1.tx.from), Arrivals([a1, a2, b], b.tx.from);
            |s| == 2 && |t| == 1 && s[1] == 1 && t[0] == 2
  {
    ThreeQueues(a1, a2, b);
    ArrivalsPoint([a1, a2, b], a1.tx.from);
    ArrivalsPoint([a1, a2, b], b.tx.from);
    var s, t := Arrivals([a1, a2, b], a1.tx.from), Arrivals([a1, a2, b], b.tx.from);
    assert [a1, a2, b][s[1]] == a2 && [a1, a2, b][t[0]] == b;
  }

  /**
   * A transaction that arrived first, and may have the earlier timestamp, comes out after a tied one of another
   * sender in every output when its own sender's queue starts with one that loses to the other.
   */
  lemma OvertakenBehindHead(policy: Policy, a1: PooledTransaction, a2: PooledTransaction, b: PooledTransaction)
    requires IsMerging(policy) && Valid(policy)
    requires a1.tx.from == a2.tx.from != b.tx.from && a1.tx.nonce < a2.tx.nonce
    requires SameKey(policy, a2, b) && Better(policy, b, a1)
    ensures TiedInOrder(policy, [a1, a2, b], a2.tx.from, 1, b.tx.from, 0)
    ensures forall out :: OrderedBy(policy, [a1, a2, b], out) ==> Leads(out, b.tx.from, 0, a2.tx.from, 1)
  {
    ThreeQueues(a1, a2, b);
    ThreeArrivals(a1, a2, b);
    assert AllBeat(policy, [b], 0, [a1, a2][0]);
    InputLeadsIff(policy, [a1, a2, b], b.tx.from, 0, a2.tx.from, 1);
  }

  // ---------- two transactions ----------

  lemma PairQueues(a: PooledTransaction, b: PooledTransaction)
    requires a.tx.from != b.tx.from
    ensures Queue([a, b], a.tx.from) == [a] && Queue([a, b], b.tx.from) == [b]
  {
    var txs, s, t := [a, b], a.tx.from, b.tx.from;
    BySenderPrefix(txs, 0, s);
    BySenderPrefix(txs, 1, s);
    BySenderPrefix(txs, 0, t);
    BySenderPrefix(txs, 1, t);
    assert txs[..0] == [] && txs[..2] == txs;
    assert BySender(txs, s) == [a] && BySender(txs, t) == [b];
    SortOfSorted(NonceLess, [a]);
    SortOfSorted(NonceLess, [b]);
  }

  lemma FirstLeads(a: PooledTransaction, b: PooledTransaction)
    requires a.tx.from != b.tx.from
    ensures Leads([a, b], a.tx.from, 0, b.tx.from, 0)
  {
    NoneEmitted([a, b], a.tx.from);
    NoneEmitted([a, b], b.tx.from);
    EmittedStep([a, b], 0, a.tx.from);
    EmittedStep([a, b], 0, b.tx.from);
    assert LeadsAt([a, b], a.tx.from, 0, b.tx.from, 0, 1);
  }

  lemma PairLeads(policy: Policy, a: PooledTransaction, b: PooledTransaction, out: seq<PooledTransaction>)
    requires IsMerging(policy) && Valid(policy) && a.tx.from != b.tx.from && OrderedBy(policy, [a, b], out)
    ensures out == [a, b] || out == [b, a]
    ensures Leads(out, a.tx.from, 0, b.tx.from, 0) <==> out == [a, b]
    ensures Leads(out, b.tx.from, 0, a.tx.from, 0) <==> out == [b, a]
  {
    PolicyIsPermutation(policy, [a, b], out);
    assert out[0] in multiset(out) && out[1] in multiset(out) && out == [out[0], out[1]];
    FirstLeads(a, b);
    FirstLeads(b, a);
    OneLeads([a, b], a.tx.from, 0, b.tx.from, 0);
    OneLeads([b, a], b.tx.from, 0, a.tx.from, 0);
  }

  lemma AheadOfOne(policy: Policy, x: PooledTransaction, y: PooledTransaction)
    requires IsMerging(policy) && Valid(policy)
    ensures Ahead(policy, [x], 0, [y], 0) <==> Better(policy, x, y)
  {
    assert [x][0] == x && [y][0] == y;
    if Better(policy, x, y) {
      assert AllBeat(policy, [x], 0, [y][0]);
    }
  }

  /** Of two transactions alone, one comes first in every output exactly when it is the better one. */
  lemma PairAlwaysIff(policy: Policy, a: PooledTransaction, b: PooledTransaction, x: PooledTransaction,
                      y: PooledTransaction)
    requires IsMerging(policy) && Valid(policy) && a.tx.from != b.tx.from
    requires (x == a && y == b) || (x == b && y == a)
    ensures (forall out :: OrderedBy(policy, [a, b], out) ==> out == [x, y]) <==> Better(policy, x, y)
  {
    PairQueues(a, b);
    InputLeadsIff(policy, [a, b], x.tx.from, 0, y.tx.from, 0);
    forall out | OrderedBy(policy, [a, b], out) ensures Leads(out, x.tx.from, 0, y.tx.from, 0) <==> out == [x, y] {
      PairLeads(policy, a, b, out);
    }
    AheadOfOne(policy, x, y);
  }

  /**
   * Two tied transactions of different senders keep their arrival order in every output exactly when the first
   * has the earlier timestamp.
   */
  lemma PairKeepsArrivalIff(policy: Policy, a: PooledTransaction, b: PooledTransaction)
    requires IsMerging(policy) && Valid(policy) && a.tx.from != b.tx.from && SameKey(policy, a, b)
    ensures (forall out :: OrderedBy(policy, [a, b], out) ==> out == [a, b]) <==> a.tx.timestamp < b.tx.timestamp
  {
    PairAlwaysIff(policy, a, b, a, b);
    SameKeyByTime(policy, a, b);
  }

  /** Of two alone, the first to arrive comes second in every output when its timestamp is the later one. */
  lemma LaterTimestampIsOvertaken(policy: Policy, a: PooledTransaction, b: PooledTransaction)
    requires IsMerging(policy) && Valid(policy) && a.tx.from != b.tx.from && SameKey(policy, a, b)
    requires b.tx.timestamp < a.tx.timestamp
    ensures forall out :: OrderedBy(policy, [a, b], out) <==> out == [b, a]
  {
    SameKeyByTime(policy, b, a);
    PairAlwaysIff(policy, a, b, b, a);
    var out := SomeOutput(policy, [a, b]);
  }

  lemma SomeOutput(policy: Policy, txs: seq<PooledTransaction>) returns (out: seq<PooledTransaction>)
    requires IsMerging(policy) && Valid(policy)
    ensures OrderedBy(policy, txs, out)
  {
    QueuesWellKept(txs);
    out := MergeExtends(policy, NonceSorted(Group(txs)), []);
  }

  /** Two transactions of different senders that tie in full come out in either order. */
  lemma TiedPairHasBothOrders(policy: Policy, a: PooledTransaction, b: PooledTransaction)
    requires IsMerging(policy) && Valid(policy) && a.tx.from != b.tx.from
    requires !Better(policy, a, b) && !Better(policy, b, a)
    ensures OrderedBy(policy, [a, b], [a, b]) && OrderedBy(policy, [a, b], [b, a])
  {
    PairAlwaysIff(policy, a, b, a, b);
    PairAlwaysIff(policy, a, b, b, a);
    forall out | OrderedBy(policy, [a, b], out) ensures out == [a, b] || out == [b, a] {
      PairLeads(policy, a, b, out);
    }
  }
}
