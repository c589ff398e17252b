/**
 * The public audit endpoint `GET /api/blockchain` (backend/server.js:39-61):
 * one content-free entry per block, and the chain's validity flag.
 */
module Audit {
  import opened Blocks
  import opened Chain

  /** What the audit view shows of a block: no transaction contents, only their number. */
  datatype AuditEntry = AuditEntry(
    index: int,
    timestamp: int,
    previousHash: string,
    hash: string,
    nonce: int,
    transactionCount: nat)

  /** The response body: the sanitized chain and `isChainValid()`. */
  datatype AuditView = AuditView(chain: seq<AuditEntry>, isValid: bool)

  /** The projection of one block. */
  function Sanitize(b: Block): AuditEntry
  {
    AuditEntry(b.index, b.timestamp, b.previousHash, b.hash, b.nonce, |b.transactions|)
  }

  /** The endpoint's response for the ledger `l`. */
  function AuditChain(c: Crypto, l: Blockchain): (r: AuditView)
    ensures |r.chain| == |l.chain|
    ensures forall i :: 0 <= i < |l.chain| ==>
      && r.chain[i].index == l.chain[i].index
      && r.chain[i].timestamp == l.chain[i].timestamp
      && r.chain[i].previousHash == l.chain[i].previousHash
      && r.chain[i].hash == l.chain[i].hash
      && r.chain[i].nonce == l.chain[i].nonce
      && r.chain[i].transactionCount == |l.chain[i].transactions|
    ensures r.isValid <==> ChainValid(c, l.chain)
  {
    AuditView(seq(|l.chain|, i requires 0 <= i < |l.chain| => Sanitize(l.chain[i])), ChainValid(c, l.chain))
  }

  /** The two blocks differ at most in what their transactions say, not in how many there are. */
  predicate SamePublicFields(a: Block, b: Block)
  {
    a.index == b.index && a.timestamp == b.timestamp && a.previousHash == b.previousHash
    && a.hash == b.hash && a.nonce == b.nonce && |a.transactions| == |b.transactions|
  }

  /**
   * The listed chain reveals nothing about transaction contents: ledgers whose
   * blocks differ only in who voted for whom list identically.
   */
  lemma AuditHidesVoteContents(c: Crypto, l1: Blockchain, l2: Blockchain)
    requires |l1.chain| == |l2.chain|
    requires forall i :: 0 <= i < |l1.chain| ==> SamePublicFields(l1.chain[i], l2.chain[i])
    ensures AuditChain(c, l1).chain == AuditChain(c, l2).chain
  {
  }

  /** After a vote is appended, the listing gains one entry for the new one-vote block and stays valid. */
  lemma AuditAfterVote(c: Crypto, l: Blockchain, v: VoteRequest, txTime: int, blockTime: int, fuel: nat)
    requires |l.chain| > 0 && ChainValid(c, l.chain)
    requires AddVote(c, l, v, txTime, blockTime, fuel).result.Ok?
    ensures var r := AddVote(c, l, v, txTime, blockTime, fuel);
      var before := AuditChain(c, l);
      var after := AuditChain(c, r.ledger);
      && after.chain == before.chain + [Sanitize(r.result.value)]
      && after.chain[|l.chain|].transactionCount == 1
      && after.chain[|l.chain|].index == |l.chain|
      && after.isValid
  {
    AddVoteKeepsChainValid(c, l, v, txTime, blockTime, fuel);
    var r := AddVote(c, l, v, txTime, blockTime, fuel);
    assert AuditChain(c, r.ledger).chain == AuditChain(c, l).chain + [Sanitize(r.result.value)];
  }
}
