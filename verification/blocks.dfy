/**
 * A block of the vote ledger: its content hash, construction, proof-of-work
 * mining and self-validation (backend/blockchain/Block.js).
 *
 * SHA-256 and `JSON.stringify` are not modelled: they are the two fields of a
 * `Crypto` record, left uninterpreted and assumed neither injective nor
 * collision-free.
 */
module Blocks {
  import opened Wrappers
  import opened Text

  /** A transaction: the genesis marker record, or one cast vote. */
  datatype Tx =
    | Marker(kind: string, data: string)
    | Vote(voterHash: string, candidateId: string, electionId: string, timestamp: int)

  datatype Block = Block(
    index: int,
    timestamp: int,
    transactions: seq<Tx>,
    previousHash: string,
    nonce: int,
    hash: string)

  /** The hashing collaborators: SHA-256 as hex text, and the JSON serializer. */
  datatype Crypto = Crypto(sha256: string -> string, serialize: seq<Tx> -> string)

  /**
   * The text that is hashed. `index + timestamp` is a numeric sum, rendered as
   * one number, followed by the transactions' digest, the previous hash and the
   * nonce.
   */
  function Preimage(c: Crypto, index: int, timestamp: int, txs: seq<Tx>, previousHash: string, nonce: int): string
  {
    IntToString(index + timestamp) + c.sha256(c.serialize(txs)) + previousHash + IntToString(nonce)
  }

  /** The hash the block's content would carry with nonce `n`. */
  function HashAt(c: Crypto, b: Block, n: int): string
  {
    c.sha256(Preimage(c, b.index, b.timestamp, b.transactions, b.previousHash, n))
  }

  /** `calculateHash()`: the digest of the block's five content fields; the stored hash is not read. */
  function CalculateHash(c: Crypto, b: Block): (h: string)
    ensures h == c.sha256(Preimage(c, b.index, b.timestamp, b.transactions, b.previousHash, b.nonce))
  {
    HashAt(c, b, b.nonce)
  }

  /** `validate()`: the stored hash is the recomputed one; linkage is not looked at. */
  predicate Validate(c: Crypto, b: Block): (ok: bool)
    ensures ok <==> b.hash == c.sha256(Preimage(c, b.index, b.timestamp, b.transactions, b.previousHash, b.nonce))
  {
    b.hash == CalculateHash(c, b)
  }

  /** Two blocks agree on everything mining leaves alone. */
  predicate SameContent(a: Block, b: Block)
  {
    a.index == b.index && a.timestamp == b.timestamp
    && a.transactions == b.transactions && a.previousHash == b.previousHash
  }

  /** The constructor: nonce 0 and the hash computed from the given fields. */
  function NewBlock(c: Crypto, index: int, timestamp: int, txs: seq<Tx>, previousHash: string): (b: Block)
    ensures b.index == index && b.timestamp == timestamp
    ensures b.transactions == txs && b.previousHash == previousHash
    ensures b.nonce == 0
    ensures Validate(c, b)
  {
    var b0 := Block(index, timestamp, txs, previousHash, 0, "");
    b0.(hash := CalculateHash(c, b0))
  }

  /** One step of the mining loop: `nonce++` then `hash = calculateHash()`. */
  function Reseal(c: Crypto, b: Block): (r: Block)
    ensures SameContent(b, r)
    ensures r.nonce == b.nonce + 1
    ensures Validate(c, r)
  {
    var b1 := b.(nonce := b.nonce + 1);
    b1.(hash := CalculateHash(c, b1))
  }

  /** The mining loop's exit test: `hash.substring(0, d) === '0'.repeat(d)`. */
  predicate Sealed(h: string, d: nat)
  {
    Prefix(h, d) == Zeros(d)
  }

  /**
   * `mineBlock(d)` given at most `fuel` loop iterations. The stored hash is
   * tested first, then the hashes of nonces `b.nonce + 1`, `b.nonce + 2`, ...
   * `None` means no sealed hash was reached within the fuel.
   */
  function Mine(c: Crypto, b: Block, d: nat, fuel: nat): (r: Option<Block>)
    ensures Sealed(b.hash, d) ==> r == Some(b)
    ensures r.Some? ==> Sealed(r.value.hash, d) && SameContent(b, r.value)
    ensures r.Some? ==> b.nonce <= r.value.nonce <= b.nonce + fuel
    ensures r.Some? && r.value.nonce == b.nonce ==> r.value == b
    ensures r.Some? && r.value.nonce > b.nonce ==>
      !Sealed(b.hash, d) && r.value.hash == HashAt(c, b, r.value.nonce)
    ensures r.Some? ==> forall n :: b.nonce < n < r.value.nonce ==> !Sealed(HashAt(c, b, n), d)
    ensures r.Some? && Validate(c, b) ==> Validate(c, r.value)
    ensures r.None? ==> !Sealed(b.hash, d)
    ensures r.None? ==> forall n :: b.nonce < n <= b.nonce + fuel ==> !Sealed(HashAt(c, b, n), d)
    decreases fuel
  {
    if Sealed(b.hash, d) then Some(b)
    else if fuel == 0 then None
    else
      var next := Reseal(c, b);
      assert forall n :: HashAt(c, next, n) == HashAt(c, b, n);
      Mine(c, next, d, fuel - 1)
  }

  /** The mining loop as written, bounded by `fuel` iterations. */
  method MineBlock(c: Crypto, b: Block, d: nat, fuel: nat) returns (r: Block, sealed: bool)
    ensures sealed <==> Mine(c, b, d, fuel).Some?
    ensures sealed ==> r == Mine(c, b, d, fuel).value
    ensures sealed ==> Sealed(r.hash, d) && SameContent(b, r)
    ensures sealed && Validate(c, b) ==> Validate(c, r)
  {
    r := b;
    var steps: nat := 0;
    while Prefix(r.hash, d) != Zeros(d) && steps < fuel
      invariant steps <= fuel
      invariant Mine(c, r, d, fuel - steps) == Mine(c, b, d, fuel)
      decreases fuel - steps
    {
      r := Reseal(c, r);
      steps := steps + 1;
    }
    sealed := Sealed(r.hash, d);
  }

  /** The exit test holds exactly when the first `d` characters exist and are all `'0'`. */
  lemma SealedMeansLeadingZeros(h: string, d: nat)
    ensures Sealed(h, d) <==> d <= |h| && forall i :: 0 <= i < d ==> h[i] == '0'
  {
  }

  /** `mineBlock(0)` leaves the block as it is. */
  lemma MineZeroDifficulty(c: Crypto, b: Block, fuel: nat)
    ensures Mine(c, b, 0, fuel) == Some(b)
  {
  }

  /** Mining an already mined block changes nothing. */
  lemma MineIdempotent(c: Crypto, b: Block, d: nat, fuel: nat, fuel': nat)
    requires Mine(c, b, d, fuel).Some?
    ensures Mine(c, Mine(c, b, d, fuel).value, d, fuel') == Mine(c, b, d, fuel)
  {
  }

  /** The hash reads the five content fields only, never the stored hash. */
  lemma HashReadsContentOnly(c: Crypto, a: Block, b: Block)
    requires SameContent(a, b) && a.nonce == b.nonce
    ensures CalculateHash(c, a) == CalculateHash(c, b)
  {
  }

  /**
   * Index and timestamp enter the hash only through their sum, so moving an
   * amount from one to the other keeps the hash.
   */
  lemma HashSeesIndexPlusTimestamp(c: Crypto, b: Block, k: int)
    ensures CalculateHash(c, b.(index := b.index + k, timestamp := b.timestamp - k)) == CalculateHash(c, b)
  {
  }
}
