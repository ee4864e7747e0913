/** The executor's account map and the order in which a `BTreeMap` walks it. */
module Accounts {
  import opened Machine

  datatype Account = Account(balance: u64, nonce: u64)

  type AccountMap = map<Address, Account>

  /** A missing account reads as `Account::default()`. */
  function Get(accounts: AccountMap, address: Address): Account {
    if address in accounts then accounts[address] else Account(0, 0)
  }

  // ---------- key order of the B-tree ----------

  /** Byte-wise lexicographic order. */
  predicate LexLeq(a: seq<byte>, b: seq<byte>) {
    a == [] || (b != [] && (a[0] < b[0] || (a[0] == b[0] && LexLeq(a[1..], b[1..]))))
  }

  lemma LexTotal(a: seq<byte>, b: seq<byte>)
    ensures LexLeq(a, b) || LexLeq(b, a)
    ensures LexLeq(a, b) && LexLeq(b, a) ==> a == b
  {
    if a != [] && b != [] {
      LexTotal(a[1..], b[1..]);
      assert a == [a[0]] + a[1..] && b == [b[0]] + b[1..];
    }
  }

  lemma LexTransitive(a: seq<byte>, b: seq<byte>, c: seq<byte>)
    requires LexLeq(a, b) && LexLeq(b, c)
    ensures LexLeq(a, c)
  {
    if a != [] && a[0] == b[0] == c[0] {
      LexTransitive(a[1..], b[1..], c[1..]);
    }
  }

  ghost predicate IsLeast(k: Address, keys: set<Address>) {
    k in keys && forall other :: other in keys ==> LexLeq(k, other)
  }

  lemma LeastExists(keys: set<Address>)
    requires keys != {}
    ensures exists k :: IsLeast(k, keys)
  {
    var k: Address :| k in keys;
    LexTotal(k, k);
    if keys == {k} {
      assert IsLeast(k, keys);
    } else {
      LeastExists(keys - {k});
      var rest: Address :| IsLeast(rest, keys - {k});
      LexTotal(k, rest);
      if LexLeq(k, rest) {
        forall other | other in keys && other != k ensures LexLeq(k, other) {
          assert other in keys - {k};
          LexTransitive(k, rest, other);
        }
        assert IsLeast(k, keys);
      } else {
        assert IsLeast(rest, keys);
      }
    }
  }

  /** The keys in ascending order, the order of `BTreeMap::iter`. */
  ghost function SortedKeys(keys: set<Address>): (order: seq<Address>) {
    if keys == {} then []
    else
      LeastExists(keys);
      var least: Address :| IsLeast(least, keys);
      [least] + SortedKeys(keys - {least})
  }

  lemma {:induction false} SortedKeysAscend(keys: set<Address>)
    ensures forall k :: k in SortedKeys(keys) <==> k in keys
    ensures forall i, j :: 0 <= i < j < |SortedKeys(keys)| ==> SortedKeys(keys)[i] != SortedKeys(keys)[j]
    ensures forall i, j :: 0 <= i < j < |SortedKeys(keys)| ==> LexLeq(SortedKeys(keys)[i], SortedKeys(keys)[j])
  {
    if keys != {} {
      LeastExists(keys);
      var order := SortedKeys(keys);
      SortedKeysAscend(keys - {order[0]});
      assert order == [order[0]] + SortedKeys(keys - {order[0]});
    }
  }

  lemma LeastFirst(keys: set<Address>, k: Address)
    requires IsLeast(k, keys)
    ensures SortedKeys(keys) == [k] + SortedKeys(keys - {k})
  {
    LeastExists(keys);
    var first := SortedKeys(keys)[0];
    LexTotal(first, first);
    LexTotal(k, first);
  }

  method PickLeast(keys: set<Address>) returns (k: Address)
    requires keys != {}
    ensures IsLeast(k, keys)
  {
    LeastExists(keys);
    k :| k in keys && forall other :: other in keys ==> LexLeq(k, other);
  }

  /** The walk of `BTreeMap::iter` over the keys. */
  method KeyOrder(keys: set<Address>) returns (order: seq<Address>)
    ensures order == SortedKeys(keys)
  {
    order := [];
    var rest := keys;
    while rest != {}
      invariant order + SortedKeys(rest) == SortedKeys(keys)
      decreases rest
    {
      var k := PickLeast(rest);
      LeastFirst(rest, k);
      order := order + [k];
      rest := rest - {k};
    }
  }
}
