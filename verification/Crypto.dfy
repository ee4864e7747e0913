/**
 * Digests as free terms.
 *
 * SHA-256 is modelled as collision free: a digest is the term that was hashed. The four preimages
 * that the executor and the guest feed to SHA-256 have lengths 36, 64, 84 and 52 bytes, so no byte
 * string is a preimage of two kinds, and distinct constructors are distinct digests.
 */
module Crypto {
  import opened Machine

  datatype Hash =
    | Zero                        // [0u8; 32], never the digest of anything
    | Sha256(preimage: Preimage)
    | Foreign(id: nat)            // a digest made elsewhere, such as the root of the persistent tree

  datatype Preimage =
    | AccountLeaf(address: Address, balance: u64, nonce: u64)
    | MerkleNode(left: Hash, right: Hash)
    | DiffFold(previous: Hash, account: Address,
               oldBalance: u64, newBalance: u64, oldNonce: u64, newNonce: u64)
    | AccountProof(root: Hash, owner: Address)

  /** Keccak-256 of a byte string, likewise as a free term. */
  datatype Digest = Keccak256(bytes: seq<byte>)
}
