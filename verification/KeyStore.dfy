/** `RocksDbStateManager`: three key families in one byte-keyed store, and the leaf indices kept there. */
module KeyStore {
  import opened Machine
  import opened Bytes
  import opened Crypto
  import opened Accounts
  import opened ExecutorTypes

  type Db = map<seq<byte>, seq<byte>>

  /** "acct:", "leafidx:" and "meta:next_leaf_index" */
  const ACCOUNT_PREFIX: seq<byte> := [97, 99, 99, 116, 58]
  const LEAF_INDEX_PREFIX: seq<byte> := [108, 101, 97, 102, 105, 100, 120, 58]
  const NEXT_LEAF_INDEX_KEY: seq<byte> :=
    [109, 101, 116, 97, 58, 110, 101, 120, 116, 95, 108, 101, 97, 102, 95, 105, 110, 100, 101, 120]

  function AccountKey(a: Address): seq<byte> {
    ACCOUNT_PREFIX + a
  }

  function LeafIndexKey(a: Address): seq<byte> {
    LEAF_INDEX_PREFIX + a
  }

  /** The tree key: the address as a 256-bit big-endian number. */
  function TreeKey(a: Address): nat {
    FromBigEndian(Zeros(12) + a)
  }

  /** `account_value_hash` */
  function ValueHash(account: Account): seq<byte> {
    BigEndian(8, account.balance) + BigEndian(8, account.nonce) + Zeros(16)
  }

  /** bincode of `Account`: two fixed-width little-endian words */
  function EncodeAccount(account: Account): seq<byte> {
    LittleEndian(8, account.balance) + LittleEndian(8, account.nonce)
  }

  /** `bincode::deserialize(..).unwrap_or_default()`; trailing bytes are allowed */
  function DecodeAccount(b: seq<byte>): Account {
    if |b| < 16 then Account(0, 0)
    else
      Widths();
      Account(FromLittleEndian(b[..8]), FromLittleEndian(b[8..16]))
  }

  // ---------- the operations ----------

  datatype StateError = CorruptNextLeafIndex | CorruptLeafIndex

  datatype TreeWrite = TreeWrite(key: nat, leafIndex: u64, valueHash: seq<byte>)

  /** The store and the writes handed to the Merkle tree so far. */
  datatype Store = Store(db: Db, tree: seq<TreeWrite>)

  function ReadU64(b: seq<byte>): u64
    requires |b| == 8
  {
    Widths();
    FromBigEndian(b)
  }

  function NextLeafIndex(db: Db): Result<u64, StateError> {
    if NEXT_LEAF_INDEX_KEY in db then
      if |db[NEXT_LEAF_INDEX_KEY]| != 8 then Err(CorruptNextLeafIndex) else Ok(ReadU64(db[NEXT_LEAF_INDEX_KEY]))
    else Ok(1)
  }

  /** The store after the next index went to a new address. */
  function WithIndex(db: Db, a: Address, index: u64): Db {
    db[LeafIndexKey(a) := BigEndian(8, index)][NEXT_LEAF_INDEX_KEY := BigEndian(8, SatAdd(index, 1))]
  }

  /** The index of an address, assigning the next one on its first write. */
  function Assign(db: Db, a: Address): Result<(u64, Db), StateError> {
    var key := LeafIndexKey(a);
    if key in db then
      if |db[key]| != 8 then Err(CorruptLeafIndex) else Ok((ReadU64(db[key]), db))
    else
      match NextLeafIndex(db)
      case Err(e) => Err(e)
      case Ok(index) => Ok((index, WithIndex(db, a, index)))
  }

  function Lookup(db: Db, a: Address): Account {
    if AccountKey(a) in db then DecodeAccount(db[AccountKey(a)]) else Account(0, 0)
  }

  function SetAccount(s: Store, a: Address, account: Account): Result<Store, StateError> {
    match Assign(s.db, a)
    case Err(e) => Err(e)
    case Ok((index, db)) =>
      Ok(Store(db[AccountKey(a) := EncodeAccount(account)],
               s.tree + [TreeWrite(TreeKey(a), index, ValueHash(account))]))
  }

  /** The diff of one write, with the tree's path or, for an empty path, its latest root. */
  function StoredDiff(db: Db, a: Address, account: Account, path: seq<Hash>, latestRoot: Hash): StateDiff {
    var before := Lookup(db, a);
    StateDiff(a, before.balance, account.balance, before.nonce, account.nonce,
              if path == [] then [latestRoot] else path, [], "jmt_valuehash_v1")
  }

  class RocksDbStateManager {
    var db: Db
    var tree: seq<TreeWrite>

    constructor ()
      ensures db == map[] && tree == []
    {
      db, tree := map[], [];
    }

    function GetAccount(a: Address): (account: Account)
      reads this
    {
      Lookup(db, a)
    }

    method LoadNextLeafIndex() returns (r: Result<u64, StateError>)
      ensures r == NextLeafIndex(db)
    {
      if NEXT_LEAF_INDEX_KEY in db {
        var bytes := db[NEXT_LEAF_INDEX_KEY];
        if |bytes| != 8 {
          return Err(CorruptNextLeafIndex);
        }
        return Ok(ReadU64(bytes));
      }
      r := Ok(1);
    }

    method GetOrAssignLeafIndex(a: Address) returns (r: Result<u64, StateError>)
      modifies this`db
      ensures match Assign(old(db), a)
              case Ok((index, next)) => r == Ok(index) && db == next
              case Err(e) => r == Err(e) && db == old(db)
    {
      var key := LeafIndexKey(a);
      if key in db {
        var bytes := db[key];
        if |bytes| != 8 {
          return Err(CorruptLeafIndex);
        }
        return Ok(ReadU64(bytes));
      }
      r := LoadNextLeafIndex();
      if r.Err? {
        return;
      }
      db := db[key := BigEndian(8, r.value)];
      db := db[NEXT_LEAF_INDEX_KEY := BigEndian(8, SatAdd(r.value, 1))];
    }

    /** `path` and `latestRoot` are the tree's answer to the write. */
    method Set(a: Address, account: Account, path: seq<Hash>, latestRoot: Hash)
      returns (r: Result<StateDiff, StateError>)
      modifies this
      ensures match SetAccount(old(Store(db, tree)), a, account)
              case Err(e) => r == Err(e) && db == old(db) && tree == old(tree)
              case Ok(next) => r == Ok(StoredDiff(old(db), a, account, path, latestRoot)) && Store(db, tree) == next
      ensures r.Ok? ==> r.value.merkleProof != []
    {
      var before := GetAccount(a);
      var index := GetOrAssignLeafIndex(a);
      if index.Err? {
        return Err(index.error);
      }
      tree := tree + [TreeWrite(TreeKey(a), index.value, ValueHash(account))];
      var proof := if path == [] then [latestRoot] else path;
      db := db[AccountKey(a) := EncodeAccount(account)];
      r := Ok(StateDiff(a, before.balance, account.balance, before.nonce, account.nonce,
                        proof, [], "jmt_valuehash_v1"));
    }
  }

  // ---------- keys and codecs ----------

  /** No two of the three families share a key, and within a family the address is recovered. */
  lemma KeysNeverCollide(a: Address, b: Address)
    ensures AccountKey(a) != LeafIndexKey(b)
    ensures AccountKey(a) != NEXT_LEAF_INDEX_KEY && LeafIndexKey(a) != NEXT_LEAF_INDEX_KEY
    ensures AccountKey(a) == AccountKey(b) <==> a == b
    ensures LeafIndexKey(a) == LeafIndexKey(b) <==> a == b
  {
    assert |AccountKey(a)| == 25 && |LeafIndexKey(a)| == |LeafIndexKey(b)| == 28 && |NEXT_LEAF_INDEX_KEY| == 20;
    assert a == AccountKey(a)[5..] == LeafIndexKey(a)[8..];
    assert b == AccountKey(b)[5..] == LeafIndexKey(b)[8..];
  }

  lemma TreeKeyInjective(a: Address, b: Address)
    ensures TreeKey(a) == TreeKey(b) <==> a == b
  {
    if TreeKey(a) == TreeKey(b) {
      FromBigEndianInjective(Zeros(12) + a, Zeros(12) + b);
      assert a == (Zeros(12) + a)[12..] && b == (Zeros(12) + b)[12..];
    }
  }

  lemma AccountRoundTrip(account: Account)
    ensures DecodeAccount(EncodeAccount(account)) == account
  {
    Widths();
    LittleEndianRoundTrip(8, account.balance);
    LittleEndianRoundTrip(8, account.nonce);
    assert EncodeAccount(account)[..8] == LittleEndian(8, account.balance);
    assert EncodeAccount(account)[8..16] == LittleEndian(8, account.nonce);
  }

  /** The 32-byte leaf value determines the account. */
  lemma ValueHashInjective(a: Account, b: Account)
    ensures |ValueHash(a)| == 32
    ensures ValueHash(a) == ValueHash(b) <==> a == b
  {
    Widths();
    BigEndianInjective(8, a.balance, b.balance);
    BigEndianInjective(8, a.nonce, b.nonce);
    assert ValueHash(a)[..8] == BigEndian(8, a.balance) && ValueHash(b)[..8] == BigEndian(8, b.balance);
    assert ValueHash(a)[8..16] == BigEndian(8, a.nonce) && ValueHash(b)[8..16] == BigEndian(8, b.nonce);
  }

  lemma IndexRoundTrip(index: u64)
    ensures ReadU64(BigEndian(8, index)) == index
  {
    Widths();
    BigEndianRoundTrip(8, index);
  }

  // ---------- refinement of a plain map ----------

  ghost predicate Holds(db: Db, key: seq<byte>, value: seq<byte>) {
    key in db && db[key] == value
  }

  /** Address number i in first-write order has leaf index i + 1, and the next index is one past the last. */
  ghost predicate IndexInv(db: Db, order: seq<Address>) {
    && |order| < U64_MAX
    && (forall i, j :: 0 <= i < j < |order| ==> order[i] != order[j])
    && (if order == [] then NEXT_LEAF_INDEX_KEY !in db
        else Holds(db, NEXT_LEAF_INDEX_KEY, BigEndian(8, |order| + 1)))
    && (forall a: Address :: LeafIndexKey(a) in db ==> a in order)
    && (forall i :: 0 <= i < |order| ==> Holds(db, LeafIndexKey(order[i]), BigEndian(8, i + 1)))
  }

  /** The account family is exactly the plain map. */
  ghost predicate AccountInv(db: Db, accounts: AccountMap) {
    forall a: Address ::
      if a in accounts then Holds(db, AccountKey(a), EncodeAccount(accounts[a])) else AccountKey(a) !in db
  }

  /** Every tree write uses the index of its address. */
  ghost predicate TreeInv(tree: seq<TreeWrite>, order: seq<Address>) {
    forall k :: 0 <= k < |tree| ==>
      exists i :: 0 <= i < |order| && tree[k].key == TreeKey(order[i]) && tree[k].leafIndex == i + 1
  }

  ghost predicate Represents(s: Store, order: seq<Address>, accounts: AccountMap) {
    IndexInv(s.db, order) && AccountInv(s.db, accounts) && TreeInv(s.tree, order)
  }

  function Extend(order: seq<Address>, a: Address): seq<Address> {
    if a in order then order else order + [a]
  }

  /** Assignment leaves the account family alone. */
  lemma AssignFrame(db: Db, a: Address, b: Address)
    requires Assign(db, a).Ok?
    ensures AccountKey(b) in Assign(db, a).value.1 <==> AccountKey(b) in db
    ensures AccountKey(b) in db ==> Assign(db, a).value.1[AccountKey(b)] == db[AccountKey(b)]
  {
    KeysNeverCollide(b, a);
  }

  lemma IndicesExtend(db: Db, order: seq<Address>, a: Address, k: nat)
    requires a !in order && k <= |order|
    requires k < |order| ==> Holds(db, LeafIndexKey(order[k]), BigEndian(8, k + 1))
    ensures Holds(db[LeafIndexKey(a) := BigEndian(8, |order| + 1)][NEXT_LEAF_INDEX_KEY := BigEndian(8, |order| + 2)],
                  LeafIndexKey((order + [a])[k]), BigEndian(8, k + 1))
  {
    KeysNeverCollide((order + [a])[k], a);
    if k < |order| {
      assert order[k] in order;
    }
  }

  lemma NextIsOnePast(db: Db, order: seq<Address>)
    requires IndexInv(db, order)
    ensures NextLeafIndex(db) == Ok(|order| + 1)
  {
    IndexRoundTrip(|order| + 1);
  }

  lemma FreshKeepsIndices(db: Db, order: seq<Address>, a: Address)
    requires IndexInv(db, order) && a !in order && |order| + 1 < U64_MAX
    ensures IndexInv(WithIndex(db, a, |order| + 1), order + [a])
  {
    var n := |order| + 1;
    var next := WithIndex(db, a, n);
    forall b: Address ensures LeafIndexKey(b) in next ==> b in order + [a] {
      KeysNeverCollide(b, a);
    }
    forall k | 0 <= k < n ensures Holds(next, LeafIndexKey((order + [a])[k]), BigEndian(8, k + 1)) {
      IndicesExtend(db, order, a, k);
    }
    assert Holds(next, NEXT_LEAF_INDEX_KEY, BigEndian(8, n + 1));
  }

  lemma AssignFresh(db: Db, order: seq<Address>, a: Address)
    requires IndexInv(db, order) && a !in order && |order| + 1 < U64_MAX
    ensures Assign(db, a).Ok? && Assign(db, a).value.0 == |order| + 1
    ensures IndexInv(Assign(db, a).value.1, order + [a])
  {
    NextIsOnePast(db, order);
    FreshKeepsIndices(db, order, a);
  }

  lemma AssignKnown(db: Db, order: seq<Address>, i: nat)
    requires IndexInv(db, order) && i < |order|
    ensures Assign(db, order[i]) == Ok((i + 1, db))
  {
    assert Holds(db, LeafIndexKey(order[i]), BigEndian(8, i + 1));
    IndexRoundTrip(i + 1);
  }

  /** Assignment never fails, keeps every index given before, and gives a new address the next one. */
  lemma AssignKeepsIndices(db: Db, order: seq<Address>, a: Address) returns (i: nat)
    requires IndexInv(db, order) && (a in order || |order| + 1 < U64_MAX)
    ensures i < |Extend(order, a)| && Extend(order, a)[i] == a
    ensures Assign(db, a).Ok? && Assign(db, a).value.0 == i + 1
    ensures IndexInv(Assign(db, a).value.1, Extend(order, a))
  {
    if a in order {
      i :| 0 <= i < |order| && order[i] == a;
      AssignKnown(db, order, i);
    } else {
      i := |order|;
      AssignFresh(db, order, a);
    }
  }

  lemma PersistKeepsIndices(db: Db, order: seq<Address>, a: Address, value: seq<byte>)
    requires IndexInv(db, order)
    ensures IndexInv(db[AccountKey(a) := value], order)
  {
    var next := db[AccountKey(a) := value];
    forall b: Address ensures LeafIndexKey(b) in next ==> b in order {
      KeysNeverCollide(a, b);
    }
    forall i | 0 <= i < |order| ensures Holds(next, LeafIndexKey(order[i]), BigEndian(8, i + 1)) {
      KeysNeverCollide(a, order[i]);
      assert Holds(db, LeafIndexKey(order[i]), BigEndian(8, i + 1));
    }
    KeysNeverCollide(a, a);
  }

  lemma PersistUpdatesAccounts(db: Db, accounts: AccountMap, a: Address, account: Account)
    requires AccountInv(db, accounts) && Assign(db, a).Ok?
    ensures AccountInv(Assign(db, a).value.1[AccountKey(a) := EncodeAccount(account)], accounts[a := account])
  {
    var next := Assign(db, a).value.1[AccountKey(a) := EncodeAccount(account)];
    forall b: Address
      ensures if b in accounts[a := account] then Holds(next, AccountKey(b), EncodeAccount(accounts[a := account][b]))
              else AccountKey(b) !in next
    {
      KeysNeverCollide(a, b);
      AssignFrame(db, a, b);
      if b in accounts { assert Holds(db, AccountKey(b), EncodeAccount(accounts[b])); }
    }
  }

  lemma TreeGrows(tree: seq<TreeWrite>, order: seq<Address>, a: Address, w: TreeWrite, i: nat)
    requires TreeInv(tree, order)
    requires i < |Extend(order, a)| && Extend(order, a)[i] == a
    requires w.key == TreeKey(a) && w.leafIndex == i + 1
    ensures TreeInv(tree + [w], Extend(order, a))
  {
    forall k | 0 <= k < |tree| + 1
      ensures exists j :: 0 <= j < |Extend(order, a)| && (tree + [w])[k].key == TreeKey(Extend(order, a)[j])
                          && (tree + [w])[k].leafIndex == j + 1
    {
      if k < |tree| {
        var j :| 0 <= j < |order| && tree[k].key == TreeKey(order[j]) && tree[k].leafIndex == j + 1;
        assert Extend(order, a)[j] == order[j];
      } else {
        assert (tree + [w])[k].key == TreeKey(Extend(order, a)[i]);
      }
    }
  }

  /** One write keeps the refinement. */
  lemma SetRefines(s: Store, order: seq<Address>, accounts: AccountMap, a: Address, account: Account)
    requires Represents(s, order, accounts) && (a in order || |order| + 1 < U64_MAX)
    ensures SetAccount(s, a, account).Ok?
    ensures Represents(SetAccount(s, a, account).value, Extend(order, a), accounts[a := account])
  {
    var i := AssignKeepsIndices(s.db, order, a);
    var (index, db) := Assign(s.db, a).value;
    PersistKeepsIndices(db, Extend(order, a), a, EncodeAccount(account));
    PersistUpdatesAccounts(s.db, accounts, a, account);
    TreeGrows(s.tree, order, a, TreeWrite(TreeKey(a), index, ValueHash(account)), i);
  }

  // ---------- any sequence of writes ----------

  datatype Write = Write(address: Address, account: Account)

  function Writes(ws: seq<Write>): Result<Store, StateError>
    decreases |ws|
  {
    if ws == [] then Ok(Store(map[], []))
    else
      match Writes(ws[..|ws| - 1])
      case Err(e) => Err(e)
      case Ok(s) => SetAccount(s, ws[|ws| - 1].address, ws[|ws| - 1].account)
  }

  /** Addresses in the order of their first write. */
  function FirstWrites(ws: seq<Write>): seq<Address>
    decreases |ws|
  {
    if ws == [] then [] else Extend(FirstWrites(ws[..|ws| - 1]), ws[|ws| - 1].address)
  }

  /** The plain map the store stands for. */
  function Latest(ws: seq<Write>): AccountMap
    decreases |ws|
  {
    if ws == [] then map[] else Latest(ws[..|ws| - 1])[ws[|ws| - 1].address := ws[|ws| - 1].account]
  }

  lemma {:induction false} WritesRefine(ws: seq<Write>)
    requires |FirstWrites(ws)| < U64_MAX
    ensures Writes(ws).Ok? && Represents(Writes(ws).value, FirstWrites(ws), Latest(ws))
    decreases |ws|
  {
    if ws != [] {
      var n := |ws| - 1;
      WritesRefine(ws[..n]);
      SetRefines(Writes(ws[..n]).value, FirstWrites(ws[..n]), Latest(ws[..n]), ws[n].address, ws[n].account);
    }
  }

  /** Reading a store that stands for a map is reading the map. */
  lemma ReadsAgree(s: Store, order: seq<Address>, accounts: AccountMap, a: Address)
    requires Represents(s, order, accounts)
    ensures Lookup(s.db, a) == Get(accounts, a)
  {
    if a in accounts {
      assert Holds(s.db, AccountKey(a), EncodeAccount(accounts[a]));
      AccountRoundTrip(accounts[a]);
    } else {
      assert AccountKey(a) !in s.db;
    }
  }

  /** After any writes that assign fewer than u64::MAX indices, every read agrees with the plain map. */
  lemma StoreAgreesWithMap(ws: seq<Write>, a: Address)
    requires |FirstWrites(ws)| < U64_MAX
    ensures Writes(ws).Ok? && Lookup(Writes(ws).value.db, a) == Get(Latest(ws), a)
  {
    WritesRefine(ws);
    ReadsAgree(Writes(ws).value, FirstWrites(ws), Latest(ws), a);
  }

  /** The leaf index of an address that has been written. */
  ghost function LeafIndex(db: Db, a: Address): u64
    requires LeafIndexKey(a) in db && |db[LeafIndexKey(a)]| == 8
  {
    ReadU64(db[LeafIndexKey(a)])
  }

  lemma IndexOf(db: Db, order: seq<Address>, i: nat)
    requires IndexInv(db, order) && i < |order|
    ensures LeafIndexKey(order[i]) in db && |db[LeafIndexKey(order[i])]| == 8 && LeafIndex(db, order[i]) == i + 1
  {
    assert Holds(db, LeafIndexKey(order[i]), BigEndian(8, i + 1));
    IndexRoundTrip(i + 1);
  }

  lemma IndexedIffWritten(db: Db, order: seq<Address>, a: Address)
    requires IndexInv(db, order)
    ensures LeafIndexKey(a) in db <==> a in order
  {
    if a in order {
      var i :| 0 <= i < |order| && order[i] == a;
      IndexOf(db, order, i);
    }
  }

  /** Leaf indices map the written addresses one to one onto 1..next-1. */
  ghost predicate Bijective(db: Db, order: seq<Address>) {
    && NextLeafIndex(db) == Ok(|order| + 1)
    && (forall a: Address :: LeafIndexKey(a) in db <==> a in order)
    && (forall i, j :: 0 <= i < j < |order| ==> order[i] != order[j])
    && (forall i :: 0 <= i < |order| ==> HasIndex(db, order[i], i + 1))
  }

  ghost predicate HasIndex(db: Db, a: Address, index: u64) {
    LeafIndexKey(a) in db && |db[LeafIndexKey(a)]| == 8 && LeafIndex(db, a) == index
  }

  lemma InvIsBijective(db: Db, order: seq<Address>)
    requires IndexInv(db, order)
    ensures Bijective(db, order)
  {
    NextIsOnePast(db, order);
    forall i | 0 <= i < |order| ensures HasIndex(db, order[i], i + 1) {
      IndexOf(db, order, i);
    }
    forall a: Address ensures LeafIndexKey(a) in db <==> a in order {
      IndexedIffWritten(db, order, a);
    }
  }

  /** After any writes the indices are a bijection from the written addresses onto 1..next-1. */
  lemma LeafIndicesAreBijective(ws: seq<Write>)
    requires |FirstWrites(ws)| < U64_MAX
    ensures Writes(ws).Ok? && Bijective(Writes(ws).value.db, FirstWrites(ws))
  {
    WritesRefine(ws);
    InvIsBijective(Writes(ws).value.db, FirstWrites(ws));
  }

  /** First-write order only grows. */
  lemma {:induction false} FirstWritesGrow(ws: seq<Write>, k: nat)
    requires k <= |ws|
    ensures FirstWrites(ws[..k]) <= FirstWrites(ws)
    decreases |ws|
  {
    if k < |ws| {
      var n := |ws| - 1;
      FirstWritesGrow(ws[..n], k);
      assert ws[..n][..k] == ws[..k];
    } else {
      assert ws[..k] == ws;
    }
  }

  /** The index that an address has after some writes is still stored for it after any further writes. */
  lemma IndicesNeverChange(ws: seq<Write>, k: nat, a: Address)
    requires |FirstWrites(ws)| < U64_MAX && k <= |ws| && a in FirstWrites(ws[..k])
    ensures Writes(ws[..k]).Ok? && Writes(ws).Ok?
    ensures var early, late := Writes(ws[..k]).value.db, Writes(ws).value.db;
            && LeafIndexKey(a) in early && LeafIndexKey(a) in late
            && early[LeafIndexKey(a)] == late[LeafIndexKey(a)] && |late[LeafIndexKey(a)]| == 8
            && Assign(late, a) == Ok((LeafIndex(early, a), late))
  {
    FirstWritesGrow(ws, k);
    WritesRefine(ws[..k]);
    WritesRefine(ws);
    var early, late := Writes(ws[..k]).value.db, Writes(ws).value.db;
    var order := FirstWrites(ws[..k]);
    var i :| 0 <= i < |order| && order[i] == a;
    assert Holds(early, LeafIndexKey(order[i]), BigEndian(8, i + 1));
    assert FirstWrites(ws)[i] == a;
    assert Holds(late, LeafIndexKey(FirstWrites(ws)[i]), BigEndian(8, i + 1));
  }

  /** Across all tree writes of a run, equal keys and equal leaf indices coincide. */
  lemma TreeIndicesConsistent(ws: seq<Write>, k: nat, l: nat)
    requires |FirstWrites(ws)| < U64_MAX
    requires Writes(ws).Ok? && k < |Writes(ws).value.tree| && l < |Writes(ws).value.tree|
    ensures var tree := Writes(ws).value.tree; tree[k].key == tree[l].key <==> tree[k].leafIndex == tree[l].leafIndex
  {
    WritesRefine(ws);
    var tree, order := Writes(ws).value.tree, FirstWrites(ws);
    var i :| 0 <= i < |order| && tree[k].key == TreeKey(order[i]) && tree[k].leafIndex == i + 1;
    var j :| 0 <= j < |order| && tree[l].key == TreeKey(order[j]) && tree[l].leafIndex == j + 1;
    TreeKeyInjective(order[i], order[j]);
    if i != j { assert order[i] != order[j]; }
  }

  lemma AssignNew(db: Db, a: Address)
    requires LeafIndexKey(a) !in db && NextLeafIndex(db).Ok?
    ensures Assign(db, a) == Ok((NextLeafIndex(db).value, WithIndex(db, a, NextLeafIndex(db).value)))
    ensures NextLeafIndex(WithIndex(db, a, NextLeafIndex(db).value)) == Ok(SatAdd(NextLeafIndex(db).value, 1))
  {
    IndexRoundTrip(SatAdd(NextLeafIndex(db).value, 1));
  }

  /** Two new addresses get different indices exactly while the saturating counter is below its maximum. */
  lemma FreshIndicesDifferIff(db: Db, a: Address, b: Address)
    requires a != b && LeafIndexKey(a) !in db && LeafIndexKey(b) !in db
    requires NextLeafIndex(db).Ok?
    ensures Assign(db, a).Ok? && Assign(Assign(db, a).value.1, b).Ok?
    ensures Assign(db, a).value.0 != Assign(Assign(db, a).value.1, b).value.0 <==> NextLeafIndex(db).value < U64_MAX
  {
    KeysNeverCollide(a, b);
    KeysNeverCollide(b, b);
    AssignNew(db, a);
    AssignNew(WithIndex(db, a, NextLeafIndex(db).value), b);
  }
}
