/** The proof-of-work policy: how many leading zeros a mined block's hash needs. */
module ProofOfWork {

  /** The number of leading `'0'` characters every mined block's hash must have. */
  const DIFFICULTY: nat := 3
}
