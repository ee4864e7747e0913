/** `compute_root`: a level-by-level Merkle root that pairs an odd last node with itself. */
module Merkle {
  import opened Machine
  import opened Crypto
  import opened Accounts

  function LeafHash(address: Address, account: Account): Hash {
    Sha256(AccountLeaf(address, account.balance, account.nonce))
  }

  function NodeHash(left: Hash, right: Hash): Hash {
    Sha256(MerkleNode(left, right))
  }

  /** One level up; a last node without a sibling is paired with itself. */
  function PairUp(level: seq<Hash>): (next: seq<Hash>)
    ensures |next| == (|level| + 1) / 2
  {
    if level == [] then []
    else if |level| == 1 then [NodeHash(level[0], level[0])]
    else [NodeHash(level[0], level[1])] + PairUp(level[2..])
  }

  function RootOf(level: seq<Hash>): Hash
    requires level != []
    decreases |level|
  {
    if |level| == 1 then level[0] else RootOf(PairUp(level))
  }

  function Leaves(accounts: AccountMap, order: seq<Address>): (leaves: seq<Hash>)
    requires forall k :: k in order ==> k in accounts
    ensures |leaves| == |order|
    ensures forall i :: 0 <= i < |order| ==> leaves[i] == LeafHash(order[i], accounts[order[i]])
  {
    seq(|order|, i requires 0 <= i < |order| => LeafHash(order[i], accounts[order[i]]))
  }

  /** The root of an account map, leaves taken in key order. */
  ghost function Root(accounts: AccountMap): Hash {
    if accounts == map[] then Zero
    else
      var order := SortedKeys(accounts.Keys);
      SortedKeysAscend(accounts.Keys);
      assert order != [] by { var k :| k in accounts.Keys; assert k in order; }
      RootOf(Leaves(accounts, order))
  }

  // ---------- the loops ----------

  method NextLevel(level: seq<Hash>) returns (next: seq<Hash>)
    ensures next == PairUp(level)
  {
    next := [];
    var i := 0;
    while i < |level|
      invariant 0 <= i <= |level| + 1
      invariant next + PairUp(level[Min(i, |level|)..]) == PairUp(level)
    {
      var left := level[i];
      var right := if i + 1 < |level| then level[i + 1] else left;
      ghost var rest := level[i..];
      assert PairUp(rest) == [NodeHash(left, right)] + PairUp(level[Min(i + 2, |level|)..]) by {
        if |rest| > 1 { assert rest[2..] == level[i + 2..]; }
      }
      next := next + [NodeHash(left, right)];
      i := i + 2;
    }
  }

  method ComputeRoot(accounts: AccountMap) returns (root: Hash)
    ensures root == Root(accounts)
  {
    var order := KeyOrder(accounts.Keys);
    SortedKeysAscend(accounts.Keys);
    var leafHashes := Leaves(accounts, order);
    assert order == [] <==> accounts == map[] by {
      if accounts != map[] { var k :| k in accounts.Keys; assert k in order; }
      if order != [] { assert order[0] in accounts; }
    }
    if leafHashes == [] {
      return Zero;
    }
    while |leafHashes| > 1
      invariant leafHashes != []
      invariant RootOf(leafHashes) == Root(accounts)
      decreases |leafHashes|
    {
      leafHashes := NextLevel(leafHashes);
    }
    root := leafHashes[0];
  }

  // ---------- binding ----------

  ghost predicate Distinct(level: seq<Hash>) {
    forall i, j :: 0 <= i < j < |level| ==> level[i] != level[j]
  }

  /** Number of pairing levels above a term's leftmost leaf. */
  ghost function Height(h: Hash): nat {
    match h
    case Sha256(MerkleNode(left, _)) => 1 + Height(left)
    case _ => 0
  }

  ghost predicate Uniform(level: seq<Hash>, height: nat) {
    forall i :: 0 <= i < |level| ==> Height(level[i]) == height
  }

  lemma {:induction false} PairUpAt(level: seq<Hash>, i: nat)
    requires i < |PairUp(level)|
    ensures 2 * i < |level|
    ensures PairUp(level)[i] ==
            NodeHash(level[2 * i], if 2 * i + 1 < |level| then level[2 * i + 1] else level[2 * i])
  {
    if |level| > 1 && i > 0 {
      PairUpAt(level[2..], i - 1);
    }
  }

  /** Pairing keeps nodes distinct and at one height, whatever the parity. */
  lemma PairUpKeepsShape(level: seq<Hash>, height: nat)
    requires Distinct(level) && Uniform(level, height)
    ensures Distinct(PairUp(level)) && Uniform(PairUp(level), height + 1)
  {
    forall i | 0 <= i < |PairUp(level)|
      ensures Height(PairUp(level)[i]) == height + 1
    {
      PairUpAt(level, i);
    }
    forall i, j | 0 <= i < j < |PairUp(level)|
      ensures PairUp(level)[i] != PairUp(level)[j]
    {
      PairUpAt(level, i);
      PairUpAt(level, j);
    }
  }

  /** The level below is determined by the level above: a self-paired node marks an odd length. */
  lemma PairUpInjective(xs: seq<Hash>, ys: seq<Hash>)
    requires Distinct(xs) && Distinct(ys)
    requires PairUp(xs) == PairUp(ys)
    ensures xs == ys
  {
    forall i | 0 <= i < |PairUp(xs)|
      ensures 2 * i < |xs| && 2 * i < |ys| && xs[2 * i] == ys[2 * i]
      ensures 2 * i + 1 < |xs| <==> 2 * i + 1 < |ys|
      ensures 2 * i + 1 < |xs| ==> xs[2 * i + 1] == ys[2 * i + 1]
    {
      PairUpAt(xs, i);
      PairUpAt(ys, i);
    }
    if xs != [] {
      var last := |PairUp(xs)| - 1;
      assert 2 * last + 1 < |xs| <==> 2 * last + 1 < |ys|;
    }
    forall k | 0 <= k < |xs| ensures k < |ys| && xs[k] == ys[k] {
      assert 0 <= k / 2 < |PairUp(xs)|;
      assert k == 2 * (k / 2) || k == 2 * (k / 2) + 1;
    }
  }

  lemma {:induction false} RootHeight(level: seq<Hash>, height: nat)
    requires level != [] && Distinct(level) && Uniform(level, height)
    ensures Height(RootOf(level)) >= height
    ensures |level| > 1 ==> Height(RootOf(level)) > height
    decreases |level|
  {
    if |level| > 1 {
      PairUpKeepsShape(level, height);
      RootHeight(PairUp(level), height + 1);
    }
  }

  lemma {:induction false} RootOfInjective(xs: seq<Hash>, ys: seq<Hash>, height: nat)
    requires xs != [] && Distinct(xs) && Uniform(xs, height)
    requires ys != [] && Distinct(ys) && Uniform(ys, height)
    requires RootOf(xs) == RootOf(ys)
    ensures xs == ys
    decreases |xs|
  {
    RootHeight(xs, height);
    RootHeight(ys, height);
    if |xs| > 1 {
      PairUpKeepsShape(xs, height);
      PairUpKeepsShape(ys, height);
      RootOfInjective(PairUp(xs), PairUp(ys), height + 1);
      PairUpInjective(xs, ys);
    }
  }

  /** The root is never the all-zero value of the empty map. */
  lemma {:induction false} RootOfNotZero(level: seq<Hash>)
    requires level != [] && forall h :: h in level ==> h.Sha256?
    ensures RootOf(level).Sha256?
    decreases |level|
  {
    if |level| > 1 {
      forall i | 0 <= i < |PairUp(level)| ensures PairUp(level)[i].Sha256? {
        PairUpAt(level, i);
      }
      RootOfNotZero(PairUp(level));
    }
  }

  /** What a nonempty map feeds to `RootOf`. */
  lemma LeavesShape(accounts: AccountMap) returns (order: seq<Address>, leaves: seq<Hash>)
    requires accounts != map[]
    ensures order == SortedKeys(accounts.Keys) && (forall k :: k in order <==> k in accounts)
    ensures leaves == Leaves(accounts, order)
    ensures leaves != [] && Distinct(leaves) && Uniform(leaves, 0)
    ensures Root(accounts) == RootOf(leaves) && Root(accounts) != Zero
  {
    order := SortedKeys(accounts.Keys);
    SortedKeysAscend(accounts.Keys);
    leaves := Leaves(accounts, order);
    assert order != [] by { var k :| k in accounts.Keys; assert k in order; }
    RootOfNotZero(leaves);
  }

  /** The root binds the whole account map, across maps of any two sizes. */
  lemma RootBindsAccounts(m1: AccountMap, m2: AccountMap)
    ensures Root(m1) == Root(m2) <==> m1 == m2
  {
    if Root(m1) == Root(m2) && m1 != map[] && m2 != map[] {
      var order1, leaves1 := LeavesShape(m1);
      var order2, leaves2 := LeavesShape(m2);
      RootOfInjective(leaves1, leaves2, 0);
      forall i | 0 <= i < |order1| ensures order1[i] == order2[i] && m1[order1[i]] == m2[order1[i]] {
        assert leaves1[i] == leaves2[i];
      }
      assert order1 == order2;
      assert m1.Keys == m2.Keys by {
        forall k ensures k in m1.Keys <==> k in m2.Keys {
          assert k in order1 <==> k in order2;
        }
      }
      forall k | k in m1 ensures m1[k] == m2[k] {
        assert k in order1;
      }
    } else if m1 != map[] {
      var _, _ := LeavesShape(m1);
    } else if m2 != map[] {
      var _, _ := LeavesShape(m2);
    }
  }

  /** Distinct leaves are needed: repeating the last of an odd level leaves the root unchanged. */
  lemma RepeatedLeafCollides(level: seq<Hash>)
    requires |level| > 1 && |level| % 2 == 1
    ensures RootOf(level + [level[|level| - 1]]) == RootOf(level)
  {
    var longer := level + [level[|level| - 1]];
    forall i | 0 <= i < |PairUp(level)| ensures PairUp(longer)[i] == PairUp(level)[i] {
      PairUpAt(level, i);
      PairUpAt(longer, i);
    }
    assert PairUp(longer) == PairUp(level);
  }
}
