/**
 * The ledger (backend/blockchain/Blockchain.js): the ordered blocks, the set
 * of voter hashes that have voted, start-up from genesis or from a persisted
 * snapshot, appending one mined block per vote, chain validation, the
 * per-election tally and the voter self-check.
 *
 * `Date.now()` readings are parameters. File I/O is the optional snapshot that
 * `Init` receives and the snapshot an operation asks to be written.
 */
module Chain {
  import opened Wrappers
  import opened Text
  import opened Blocks
  import opened Counters
  import ProofOfWork

  const GENESIS_KIND := "genesis"
  const GENESIS_DATA := "Ballot Box Genesis"
  const GENESIS_PREVIOUS_HASH := "0"
  const DOUBLE_VOTE_MESSAGE := "Double voting attempt detected. This address has already voted."

  /**
   * The `Blockchain` object. `votedAddresses` is a JavaScript `Set`, kept here
   * as its elements in insertion order.
   */
  datatype Blockchain = Blockchain(chain: seq<Block>, difficulty: nat, votedAddresses: seq<string>)

  /** The state `init` leaves and every append keeps. */
  predicate Ready(l: Blockchain)
  {
    |l.chain| > 0 && l.difficulty == ProofOfWork.DIFFICULTY && Distinct(l.votedAddresses)
  }

  // ---------------------------------------------------------------- genesis

  /** `createGenesisBlock()` at time `now`. */
  function CreateGenesisBlock(c: Crypto, now: int): (g: Block)
    ensures g.index == 0 && g.timestamp == now && g.nonce == 0
    ensures g.previousHash == GENESIS_PREVIOUS_HASH
    ensures g.transactions == [Marker(GENESIS_KIND, GENESIS_DATA)]
    ensures Validate(c, g)
  {
    NewBlock(c, 0, now, [Marker(GENESIS_KIND, GENESIS_DATA)], GENESIS_PREVIOUS_HASH)
  }

  // ------------------------------------------------------------ persistence

  /** A block as read back from the data file; its transactions may be missing. */
  datatype StoredBlock = StoredBlock(
    index: int,
    timestamp: int,
    transactions: Option<seq<Tx>>,
    previousHash: string,
    nonce: int,
    hash: string)

  /** The parsed data file; either field may be missing. */
  datatype Snapshot = Snapshot(chain: Option<seq<StoredBlock>>, votedAddresses: Option<seq<string>>)

  /** What start-up produced, and the snapshot it asks to be written, if any. */
  datatype Loaded = Loaded(ledger: Blockchain, write: Option<Snapshot>)

  /** A block as it is written out. */
  function Store(b: Block): StoredBlock
  {
    StoredBlock(b.index, b.timestamp, Some(b.transactions), b.previousHash, b.nonce, b.hash)
  }

  /** A block rebuilt from the file, with `transactions: b.transactions || []`. */
  function Restore(s: StoredBlock): (b: Block)
    ensures b.index == s.index && b.timestamp == s.timestamp
    ensures b.previousHash == s.previousHash && b.nonce == s.nonce && b.hash == s.hash
    ensures b.transactions == (if s.transactions.Some? then s.transactions.value else [])
  {
    Block(s.index, s.timestamp, if s.transactions.Some? then s.transactions.value else [],
          s.previousHash, s.nonce, s.hash)
  }

  /**
   * `new Set(xs)`, spread back into a list: the elements of `xs` without
   * repeats. A set iterates in insertion order, so each element stands where
   * it first occurs.
   */
  function Dedup(xs: seq<string>): (r: seq<string>)
    ensures Distinct(r)
    ensures Elements(r) == Elements(xs)
    decreases |xs|
  {
    if xs == [] then []
    else
      var init := xs[..|xs| - 1];
      var last := xs[|xs| - 1];
      var d := Dedup(init);
      assert xs == init + [last];
      assert Elements(xs) == Elements(init) + {last};
      assert Elements(d + [last]) == Elements(d) + {last};
      if last in d then d else d + [last]
  }

  /** Every element of `r` occurs in `xs`, and `r` lists them by first occurrence in `xs`. */
  predicate FirstOccurrenceOrder(r: seq<string>, xs: seq<string>)
  {
    forall i, j :: 0 <= i < j < |r| ==> r[i] in xs && r[j] in xs && IndexOf(xs, r[i]) < IndexOf(xs, r[j])
  }

  /** `Dedup` lists the elements in the order of their first occurrence in `xs`. */
  lemma {:induction false} DedupKeepsFirstOccurrenceOrder(xs: seq<string>)
    ensures FirstOccurrenceOrder(Dedup(xs), xs)
    decreases |xs|
  {
    if xs != [] {
      var init := xs[..|xs| - 1];
      var last := xs[|xs| - 1];
      var d := Dedup(init);
      DedupKeepsFirstOccurrenceOrder(init);
      forall y | y in d
        ensures y in init && IndexOf(xs, y) == IndexOf(init, y) < |init|
      {
        assert y in Elements(d);
        IndexOfInPrefix(xs, |xs| - 1, y);
      }
      assert FirstOccurrenceOrder(d, init);
      var r := Dedup(xs);
      assert r == if last in d then d else d + [last];
      forall i, j | 0 <= i < j < |r|
        ensures r[i] in xs && r[j] in xs && IndexOf(xs, r[i]) < IndexOf(xs, r[j])
      {
        assert r[i] == d[i] && r[i] in d;
        if j < |d| {
          assert r[j] == d[j] && r[j] in d;
          assert IndexOf(init, d[i]) < IndexOf(init, d[j]);
        } else {
          assert r[j] == last && last !in Elements(init);
          assert IndexOf(xs, last) == |xs| - 1;
        }
      }
    }
  }

  /** A list without repeats comes out of `Dedup` unchanged. */
  lemma {:induction false} DedupOfDistinct(xs: seq<string>)
    requires Distinct(xs)
    ensures Dedup(xs) == xs
    decreases |xs|
  {
    if xs != [] {
      var init := xs[..|xs| - 1];
      var last := xs[|xs| - 1];
      forall i, j | 0 <= i < j < |init|
        ensures init[i] != init[j]
      {
        assert init[i] == xs[i] && init[j] == xs[j];
      }
      DedupOfDistinct(init);
      forall k | 0 <= k < |init|
        ensures init[k] != last
      {
        assert init[k] == xs[k];
      }
      assert init + [last] == xs;
    }
  }

  /** `save()`: the whole chain and the voted set spread into a list. */
  function Save(l: Blockchain): (s: Snapshot)
    ensures s.chain.Some? && |s.chain.value| == |l.chain|
    ensures forall i :: 0 <= i < |l.chain| ==> s.chain.value[i] == Store(l.chain[i])
    ensures s.votedAddresses == Some(l.votedAddresses)
  {
    Snapshot(Some(seq(|l.chain|, i requires 0 <= i < |l.chain| => Store(l.chain[i]))), Some(l.votedAddresses))
  }

  /** The file was read and holds a chain with at least one block. */
  predicate HasChain(data: Option<Snapshot>)
  {
    data.Some? && data.value.chain.Some? && |data.value.chain.value| > 0
  }

  /**
   * `new Blockchain()` followed by `init()`, as the code behaves. Rebuilding a
   * stored block starts from `new Block()` with no arguments, whose
   * constructor hashes `JSON.stringify(undefined)`: that is `undefined`, which
   * Node's hash `update` rejects with a TypeError. The `catch` swallows it, so
   * a file with a non-empty chain ends where a missing or corrupt one does: a
   * fresh genesis chain with an empty registry, written over the file.
   */
  function Init(c: Crypto, data: Option<Snapshot>, now: int): (r: Loaded)
    ensures Ready(r.ledger)
    ensures r.ledger.chain == [CreateGenesisBlock(c, now)]
    ensures r.ledger.votedAddresses == []
    ensures r.write == Some(Save(r.ledger))
  {
    var l := Blockchain([CreateGenesisBlock(c, now)], ProofOfWork.DIFFICULTY, []);
    Loaded(l, Some(Save(l)))
  }

  /**
   * `init()` as its comments and its `if` intend it: a snapshot with a
   * non-empty chain is restored block by block, the voted list becomes a set,
   * and nothing is written; otherwise (no file, a corrupt file, an empty
   * chain) the chain is a fresh genesis block and it is saved.
   */
  function InitIntended(c: Crypto, data: Option<Snapshot>, now: int): (r: Loaded)
    ensures Ready(r.ledger)
    ensures HasChain(data) ==>
      var stored := data.value.chain.value;
      && |r.ledger.chain| == |stored|
      && (forall i :: 0 <= i < |stored| ==> r.ledger.chain[i] == Restore(stored[i]))
      && Elements(r.ledger.votedAddresses)
         == (if data.value.votedAddresses.Some? then Elements(data.value.votedAddresses.value) else {})
      && r.write.None?
    ensures !HasChain(data) ==> r == Init(c, data, now)
  {
    if HasChain(data) then
      var stored := data.value.chain.value;
      var voted := if data.value.votedAddresses.Some? then data.value.votedAddresses.value else [];
      var chain := seq(|stored|, i requires 0 <= i < |stored| => Restore(stored[i]));
      Loaded(Blockchain(chain, ProofOfWork.DIFFICULTY, Dedup(voted)), None)
    else
      Init(c, data, now)
  }

  /** Writing a started ledger and starting again from that file gives it back. */
  lemma SaveThenInit(c: Crypto, l: Blockchain, now: int)
    requires Ready(l)
    ensures InitIntended(c, Some(Save(l)), now).ledger == l
  {
    DedupOfDistinct(l.votedAddresses);
    var r := InitIntended(c, Some(Save(l)), now).ledger;
    assert r.chain == l.chain;
  }

  // ------------------------------------------------------------------ append

  /** `getLatestBlock()`: the tip, with everything else before it. */
  function GetLatestBlock(l: Blockchain): (tip: Block)
    requires |l.chain| > 0
    ensures l.chain == l.chain[..|l.chain| - 1] + [tip]
  {
    l.chain[|l.chain| - 1]
  }

  /** The fields of the vote `addVote` is given. */
  datatype VoteRequest = VoteRequest(voterHash: string, candidateId: string, electionId: string)

  /** What `addVote` can throw. `MiningExhausted` only exists because mining is given fuel. */
  datatype LedgerError = DoubleVote | MiningExhausted

  /** The thrown error's `message`. */
  function ErrorMessage(e: LedgerError): string
  {
    match e
    case DoubleVote => DOUBLE_VOTE_MESSAGE
    case MiningExhausted => "Mining did not finish"
  }

  /** The ledger after `addVote`, what it returned, and the snapshot it saved. */
  datatype Appended = Appended(ledger: Blockchain, result: Result<Block, LedgerError>, write: Option<Snapshot>)

  /** The block `addVote` builds before mining: the vote alone, linked to the tip. */
  function PendingBlock(c: Crypto, l: Blockchain, v: VoteRequest, txTime: int, blockTime: int): Block
    requires |l.chain| > 0
  {
    NewBlock(c, |l.chain|, blockTime, [Vote(v.voterHash, v.candidateId, v.electionId, txTime)], GetLatestBlock(l).hash)
  }

  /**
   * `addVote(vote)` with `Date.now()` read as `txTime` for the vote record and
   * as `blockTime` for the block, and mining limited to `fuel` steps.
   */
  function AddVote(c: Crypto, l: Blockchain, v: VoteRequest, txTime: int, blockTime: int, fuel: nat): (r: Appended)
    requires |l.chain| > 0
    ensures r.result == Err(DoubleVote) <==> v.voterHash in l.votedAddresses
    ensures r.result == Err(MiningExhausted) <==>
      v.voterHash !in l.votedAddresses && Mine(c, PendingBlock(c, l, v, txTime, blockTime), l.difficulty, fuel).None?
    ensures r.result.Ok? ==> Mine(c, PendingBlock(c, l, v, txTime, blockTime), l.difficulty, fuel) == Some(r.result.value)
    ensures r.result.Err? ==> r.ledger == l && r.write.None?
    ensures r.result.Ok? ==>
      var b := r.result.value;
      && r.ledger.chain == l.chain + [b]
      && b.index == |l.chain|
      && b.timestamp == blockTime
      && b.previousHash == l.chain[|l.chain| - 1].hash
      && b.transactions == [Vote(v.voterHash, v.candidateId, v.electionId, txTime)]
      && b.nonce >= 0
      && Validate(c, b)
      && Sealed(b.hash, l.difficulty)
      && r.ledger.votedAddresses == l.votedAddresses + [v.voterHash]
      && r.ledger.difficulty == l.difficulty
      && r.write == Some(Save(r.ledger))
  {
    if v.voterHash in l.votedAddresses then Appended(l, Err(DoubleVote), None)
    else
      match Mine(c, PendingBlock(c, l, v, txTime, blockTime), l.difficulty, fuel)
      case None => Appended(l, Err(MiningExhausted), None)
      case Some(b) =>
        var l' := l.(chain := l.chain + [b], votedAddresses := l.votedAddresses + [v.voterHash]);
        Appended(l', Ok(b), Some(Save(l')))
  }

  /** Where mining needs no search, a new voter's vote is always appended, whatever the fuel. */
  lemma NewVoterAppendedAtZeroDifficulty(c: Crypto, l: Blockchain, v: VoteRequest, txTime: int, blockTime: int, fuel: nat)
    requires |l.chain| > 0 && l.difficulty == 0
    requires v.voterHash !in l.votedAddresses
    ensures AddVote(c, l, v, txTime, blockTime, fuel).result.Ok?
  {
    MineZeroDifficulty(c, PendingBlock(c, l, v, txTime, blockTime), fuel);
  }

  /** A successful append keeps the ledger ready: one more block, the voter recorded once. */
  lemma AddVoteKeepsReady(c: Crypto, l: Blockchain, v: VoteRequest, txTime: int, blockTime: int, fuel: nat)
    requires Ready(l)
    ensures Ready(AddVote(c, l, v, txTime, blockTime, fuel).ledger)
  {
  }

  /** Every block `addVote` appends to a ready ledger starts with `"000"`. */
  lemma AppendedBlockHasLeadingZeros(c: Crypto, l: Blockchain, v: VoteRequest, txTime: int, blockTime: int, fuel: nat)
    requires Ready(l)
    requires AddVote(c, l, v, txTime, blockTime, fuel).result.Ok?
    ensures var h := AddVote(c, l, v, txTime, blockTime, fuel).result.value.hash;
      |h| >= 3 && h[..3] == "000"
  {
  }

  /** Saving after an append and starting again from that file gives the appended ledger. */
  lemma AppendSurvivesRestart(c: Crypto, l: Blockchain, v: VoteRequest, txTime: int, blockTime: int, fuel: nat, now: int)
    requires Ready(l)
    requires AddVote(c, l, v, txTime, blockTime, fuel).result.Ok?
    ensures var r := AddVote(c, l, v, txTime, blockTime, fuel);
      InitIntended(c, r.write, now).ledger == r.ledger
  {
    var r := AddVote(c, l, v, txTime, blockTime, fuel);
    AddVoteKeepsReady(c, l, v, txTime, blockTime, fuel);
    SaveThenInit(c, r.ledger, now);
  }

  /**
   * As written, a restart forgets every vote: the file a successful vote wrote
   * gives back a lone genesis block and an empty registry, so the same voter
   * hash is no longer refused as a double vote.
   */
  lemma RestartForgetsVotes(c: Crypto, l: Blockchain, v: VoteRequest, txTime: int, blockTime: int, fuel: nat,
                            now: int, txTime': int, blockTime': int, fuel': nat)
    requires Ready(l)
    requires AddVote(c, l, v, txTime, blockTime, fuel).result.Ok?
    ensures var r := AddVote(c, l, v, txTime, blockTime, fuel);
      var l' := Init(c, r.write, now).ledger;
      && v.voterHash in r.ledger.votedAddresses
      && |r.ledger.chain| >= 2
      && l'.chain == [CreateGenesisBlock(c, now)]
      && AddVote(c, l', v, txTime', blockTime', fuel').result != Err(DoubleVote)
  {
  }

  // -------------------------------------------------------------- validation

  /**
   * What `isChainValid()` checks: from position 1 on, each block validates and
   * links to its predecessor's hash. Block 0 is never validated and indices
   * are never compared.
   */
  predicate ChainValid(c: Crypto, blocks: seq<Block>)
  {
    forall i :: 1 <= i < |blocks| ==> Linked(c, blocks, i)
  }

  /** Block `i` validates and names its predecessor's hash. */
  predicate Linked(c: Crypto, blocks: seq<Block>, i: nat)
    requires 1 <= i < |blocks|
  {
    Validate(c, blocks[i]) && blocks[i].previousHash == blocks[i - 1].hash
  }

  /** The loop of `isChainValid()`, returning at the first failing block. */
  method IsChainValid(c: Crypto, blocks: seq<Block>) returns (ok: bool)
    ensures ok <==> ChainValid(c, blocks)
  {
    var i := 1;
    while i < |blocks|
      invariant 1 <= i
      invariant forall k :: 1 <= k < i && k < |blocks| ==> Linked(c, blocks, k)
    {
      var current := blocks[i];
      if !Validate(c, current) {
        assert !Linked(c, blocks, i);
        return false;
      }
      if current.previousHash != blocks[i - 1].hash {
        assert !Linked(c, blocks, i);
        return false;
      }
      i := i + 1;
    }
    return true;
  }

  /** Appending a vote to a valid chain leaves a valid chain. */
  lemma AddVoteKeepsChainValid(c: Crypto, l: Blockchain, v: VoteRequest, txTime: int, blockTime: int, fuel: nat)
    requires |l.chain| > 0 && ChainValid(c, l.chain)
    ensures ChainValid(c, AddVote(c, l, v, txTime, blockTime, fuel).ledger.chain)
  {
    var r := AddVote(c, l, v, txTime, blockTime, fuel);
    if r.result.Ok? {
      var s := r.ledger.chain;
      forall i | 1 <= i < |s|
        ensures Linked(c, s, i)
      {
        if i < |l.chain| {
          assert Linked(c, l.chain, i);
          assert s[i] == l.chain[i] && s[i - 1] == l.chain[i - 1];
        } else {
          assert s[i] == r.result.value && s[i - 1] == l.chain[|l.chain| - 1];
        }
      }
    }
  }

  /** Overwriting the stored hash of any block after the first is detected. */
  lemma TamperedHashDetected(c: Crypto, blocks: seq<Block>, i: nat, forged: string)
    requires 1 <= i < |blocks|
    requires forged != CalculateHash(c, blocks[i])
    ensures !ChainValid(c, blocks[i := blocks[i].(hash := forged)])
  {
    var t := blocks[i := blocks[i].(hash := forged)];
    assert !Linked(c, t, i);
  }

  /** The genesis block's content is never checked: replacing it by any block with the same hash keeps validity. */
  lemma GenesisContentUnchecked(c: Crypto, blocks: seq<Block>, g: Block)
    requires |blocks| > 0 && ChainValid(c, blocks)
    requires g.hash == blocks[0].hash
    ensures ChainValid(c, blocks[0 := g])
  {
    var t := blocks[0 := g];
    forall i | 1 <= i < |t|
      ensures Linked(c, t, i)
    {
      assert Linked(c, blocks, i);
      assert t[i] == blocks[i];
    }
  }

  /** The genesis block is never mined: its hash need not start with zeros. */
  lemma GenesisNotMined(now: int)
    ensures var c := Crypto(s => "f", txs => "");
      !Sealed(CreateGenesisBlock(c, now).hash, ProofOfWork.DIFFICULTY)
  {
  }

  // ------------------------------------------------------------------- tally

  /** The transaction is a vote in election `e`. */
  predicate InElection(tx: Tx, e: string)
  {
    tx.Vote? && tx.electionId == e
  }

  /** Votes among `txs` in election `e` for candidate `k`. */
  function CountIn(txs: seq<Tx>, e: string, k: string): nat
  {
    if txs == [] then 0
    else
      var last := txs[|txs| - 1];
      CountIn(txs[..|txs| - 1], e, k) + (if InElection(last, e) && last.candidateId == k then 1 else 0)
  }

  /** Votes among `txs` in election `e`, whatever the candidate. */
  function ElectionCountIn(txs: seq<Tx>, e: string): nat
  {
    if txs == [] then 0
    else
      ElectionCountIn(txs[..|txs| - 1], e) + (if InElection(txs[|txs| - 1], e) then 1 else 0)
  }

  /** Votes for `k` in election `e` over the blocks whose `index` is not 0. */
  function CountVotes(blocks: seq<Block>, e: string, k: string): nat
  {
    if blocks == [] then 0
    else
      var last := blocks[|blocks| - 1];
      CountVotes(blocks[..|blocks| - 1], e, k) + (if last.index == 0 then 0 else CountIn(last.transactions, e, k))
  }

  /** Votes in election `e` over the blocks whose `index` is not 0. */
  function ElectionVotes(blocks: seq<Block>, e: string): nat
  {
    if blocks == [] then 0
    else
      var last := blocks[|blocks| - 1];
      ElectionVotes(blocks[..|blocks| - 1], e) + (if last.index == 0 then 0 else ElectionCountIn(last.transactions, e))
  }

  /** The inner loop of `getElectionVotes`: one block's transactions counted into `t`. */
  function TallyTxs(t: seq<Entry>, txs: seq<Tx>, e: string): (r: seq<Entry>)
    ensures forall k :: Get(r, k) == Get(t, k) + CountIn(txs, e, k)
    ensures Total(r) == Total(t) + ElectionCountIn(txs, e)
    ensures WellFormed(t) ==> WellFormed(r)
  {
    if txs == [] then t
    else
      var last := txs[|txs| - 1];
      var before := TallyTxs(t, txs[..|txs| - 1], e);
      if InElection(last, e) then Bump(before, last.candidateId) else before
  }

  /**
   * `getElectionVotes(e)`: candidate id to number of votes in election `e`,
   * over the blocks whose `index` is not 0.
   */
  function GetElectionVotes(blocks: seq<Block>, e: string): (r: seq<Entry>)
    ensures WellFormed(r)
    ensures forall k :: Get(r, k) == CountVotes(blocks, e, k)
    ensures Total(r) == ElectionVotes(blocks, e)
  {
    if blocks == [] then []
    else
      var last := blocks[|blocks| - 1];
      var before := GetElectionVotes(blocks[..|blocks| - 1], e);
      if last.index == 0 then before else TallyTxs(before, last.transactions, e)
  }

  /** A candidate appears in the tally exactly when it received a vote in that election. */
  lemma TallyKeys(blocks: seq<Block>, e: string, k: string)
    ensures k in Keys(GetElectionVotes(blocks, e)) <==> CountVotes(blocks, e, k) > 0
  {
    GetPositiveIffKey(GetElectionVotes(blocks, e), k);
  }

  /** An election with no recorded vote tallies to the empty object, and only such an election does. */
  lemma TallyEmptyIffNoVotes(blocks: seq<Block>, e: string)
    ensures GetElectionVotes(blocks, e) == [] <==> ElectionVotes(blocks, e) == 0
  {
  }

  /** A successful append adds exactly one vote, for its own election and candidate. */
  lemma AddVoteCountsOnce(c: Crypto, l: Blockchain, v: VoteRequest, txTime: int, blockTime: int, fuel: nat, e: string, k: string)
    requires |l.chain| > 0
    requires AddVote(c, l, v, txTime, blockTime, fuel).result.Ok?
    ensures CountVotes(AddVote(c, l, v, txTime, blockTime, fuel).ledger.chain, e, k)
      == CountVotes(l.chain, e, k) + (if e == v.electionId && k == v.candidateId then 1 else 0)
    ensures ElectionVotes(AddVote(c, l, v, txTime, blockTime, fuel).ledger.chain, e)
      == ElectionVotes(l.chain, e) + (if e == v.electionId then 1 else 0)
  {
    var s := AddVote(c, l, v, txTime, blockTime, fuel).ledger.chain;
    var b := AddVote(c, l, v, txTime, blockTime, fuel).result.value;
    assert s == l.chain + [b] && b.index != 0;
    assert s[..|s| - 1] == l.chain && s[|s| - 1] == b;
    assert b.transactions[..0] == [];
    assert CountIn(b.transactions, e, k) == if e == v.electionId && k == v.candidateId then 1 else 0;
    assert ElectionCountIn(b.transactions, e) == if e == v.electionId then 1 else 0;
  }

  // ------------------------------------------------------------------ lookup

  /** The transaction is a vote cast under voter hash `h` in election `e`. */
  predicate Matches(tx: Tx, h: string, e: string)
  {
    tx.Vote? && tx.voterHash == h && tx.electionId == e
  }

  /** Position of the first matching transaction in `txs`. */
  function FirstMatch(txs: seq<Tx>, h: string, e: string): (r: Option<nat>)
    ensures r.Some? ==> r.value < |txs| && Matches(txs[r.value], h, e)
    ensures r.Some? ==> forall j :: 0 <= j < r.value ==> !Matches(txs[j], h, e)
    ensures r.None? ==> forall j :: 0 <= j < |txs| ==> !Matches(txs[j], h, e)
  {
    if txs == [] then None
    else if Matches(txs[0], h, e) then Some(0)
    else
      match FirstMatch(txs[1..], h, e)
      case None => None
      case Some(j) => Some(j + 1)
  }

  /** Some transaction of some block matches. */
  predicate AnyMatch(blocks: seq<Block>, h: string, e: string)
  {
    exists i, j :: 0 <= i < |blocks| && 0 <= j < |blocks[i].transactions| && Matches(blocks[i].transactions[j], h, e)
  }

  /** Transaction `j` of block `i` matches and nothing before it, in chain order, does. */
  predicate FirstMatchAt(blocks: seq<Block>, h: string, e: string, i: nat, j: nat)
  {
    && i < |blocks| && j < |blocks[i].transactions|
    && Matches(blocks[i].transactions[j], h, e)
    && (forall i', j' :: 0 <= i' < i && 0 <= j' < |blocks[i'].transactions| ==> !Matches(blocks[i'].transactions[j'], h, e))
    && (forall j' :: 0 <= j' < j ==> !Matches(blocks[i].transactions[j'], h, e))
  }

  /** Block and transaction position of the first match, scanning blocks in order. */
  function Locate(blocks: seq<Block>, h: string, e: string): (r: Option<(nat, nat)>)
    ensures r.Some? ==> FirstMatchAt(blocks, h, e, r.value.0, r.value.1)
    ensures r.None? <==> !AnyMatch(blocks, h, e)
  {
    if blocks == [] then None
    else
      match FirstMatch(blocks[0].transactions, h, e)
      case Some(j) => Some((0, j))
      case None =>
        match Locate(blocks[1..], h, e)
        case None => None
        case Some((i, j)) =>
          assert blocks[1..][i] == blocks[i + 1];
          Some((i + 1, j))
  }

  /** The answer of `verifyVote`: where the vote sits, never whom it was for. */
  datatype Receipt = NotFound | Found(blockIndex: int, blockHash: string, timestamp: int)

  /** `verifyVote(h, e)`: the first vote by `h` in election `e`, scanning all blocks in order. */
  function VerifyVote(blocks: seq<Block>, h: string, e: string): (r: Receipt)
    ensures r.NotFound? <==> !AnyMatch(blocks, h, e)
    ensures forall i: nat, j: nat :: FirstMatchAt(blocks, h, e, i, j) ==>
      r == Found(blocks[i].index, blocks[i].hash, blocks[i].transactions[j].timestamp)
  {
    match Locate(blocks, h, e)
    case None => NotFound
    case Some((i, j)) =>
      assert FirstMatchAt(blocks, h, e, i, j);
      Found(blocks[i].index, blocks[i].hash, blocks[i].transactions[j].timestamp)
  }

  /** The text `` `${id}:${token}` ``: the id, one colon, then the token. */
  function KeyText(id: string, token: string): (p: string)
    ensures |p| == |id| + 1 + |token|
    ensures p[..|id|] == id && p[|id|] == ':' && p[|id| + 1..] == token
  {
    id + ":" + token
  }

  /** `generateVoterHash(id, token)`: SHA-256 of the id and the token joined by a colon. */
  function GenerateVoterHash(c: Crypto, voterId: string, secretToken: string): (h: string)
    ensures h == c.sha256(KeyText(voterId, secretToken))
  {
    c.sha256(KeyText(voterId, secretToken))
  }

  /** With colon-free ids, the hashed text `id:token` determines both parts. */
  lemma VoterKeyDeterminesParts(id1: string, token1: string, id2: string, token2: string)
    requires Lacks(id1, ':') && Lacks(id2, ':')
    requires KeyText(id1, token1) == KeyText(id2, token2)
    ensures id1 == id2 && token1 == token2
  {
    var s := KeyText(id1, token1);
    assert s[|id1|] == ':' && s[|id2|] == ':';
    assert id1 == s[..|id1|] && id2 == s[..|id2|];
    assert token1 == s[|id1| + 1..] && token2 == s[|id2| + 1..];
  }

  // --------------------------------------------------------------- registry

  /** Voter hashes of the votes among `txs`. */
  function VotersIn(txs: seq<Tx>): set<string>
  {
    if txs == [] then {}
    else VotersIn(txs[..|txs| - 1]) + (if txs[|txs| - 1].Vote? then {txs[|txs| - 1].voterHash} else {})
  }

  /** Voter hashes of every vote in the chain. */
  function Voters(blocks: seq<Block>): set<string>
  {
    if blocks == [] then {} else Voters(blocks[..|blocks| - 1]) + VotersIn(blocks[|blocks| - 1].transactions)
  }

  /** Votes cast under voter hash `h` among `txs`. */
  function BallotsIn(txs: seq<Tx>, h: string): nat
  {
    if txs == [] then 0
    else BallotsIn(txs[..|txs| - 1], h) + (if txs[|txs| - 1].Vote? && txs[|txs| - 1].voterHash == h then 1 else 0)
  }

  /** Votes cast under voter hash `h` in the chain, in any election. */
  function Ballots(blocks: seq<Block>, h: string): nat
  {
    if blocks == [] then 0 else Ballots(blocks[..|blocks| - 1], h) + BallotsIn(blocks[|blocks| - 1].transactions, h)
  }

  /** `votedAddresses` holds exactly the voters of the chain, and nobody voted twice. */
  ghost predicate RegistryInvariant(l: Blockchain)
  {
    && Elements(l.votedAddresses) == Voters(l.chain)
    && forall h :: Ballots(l.chain, h) <= 1
  }

  /** Within one block, a voter hash has a ballot exactly when it is among the block's voters. */
  lemma {:induction false} BallotsInPositiveIffVoter(txs: seq<Tx>, h: string)
    ensures BallotsIn(txs, h) > 0 <==> h in VotersIn(txs)
  {
    if txs != [] {
      BallotsInPositiveIffVoter(txs[..|txs| - 1], h);
    }
  }

  /** A voter hash has a vote in the chain exactly when it is among its voters. */
  lemma {:induction false} BallotsPositiveIffVoter(blocks: seq<Block>, h: string)
    ensures Ballots(blocks, h) > 0 <==> h in Voters(blocks)
  {
    if blocks != [] {
      BallotsPositiveIffVoter(blocks[..|blocks| - 1], h);
      BallotsInPositiveIffVoter(blocks[|blocks| - 1].transactions, h);
    }
  }

  /** Start-up, which as written always yields a fresh genesis chain, satisfies the registry invariant. */
  lemma GenesisRegistry(c: Crypto, data: Option<Snapshot>, now: int)
    ensures RegistryInvariant(Init(c, data, now).ledger)
  {
    var l := Init(c, data, now).ledger;
    var g := CreateGenesisBlock(c, now);
    assert l.chain[..0] == [];
    assert g.transactions[..0] == [];
    assert VotersIn(g.transactions) == {};
    forall h ensures Ballots(l.chain, h) <= 1 {
      assert BallotsIn(g.transactions, h) == 0;
    }
  }

  /**
   * Appending keeps the registry equal to the chain's voters, and since a known
   * voter is refused, no voter hash ever has two votes, across all elections.
   */
  lemma AddVoteKeepsRegistry(c: Crypto, l: Blockchain, v: VoteRequest, txTime: int, blockTime: int, fuel: nat)
    requires |l.chain| > 0 && RegistryInvariant(l)
    ensures RegistryInvariant(AddVote(c, l, v, txTime, blockTime, fuel).ledger)
  {
    var r := AddVote(c, l, v, txTime, blockTime, fuel);
    if r.result.Ok? {
      var s := r.ledger.chain;
      var b := r.result.value;
      var h0 := v.voterHash;
      assert s[..|s| - 1] == l.chain && s[|s| - 1] == b;
      assert b.transactions[..0] == [];
      assert VotersIn(b.transactions) == {h0};
      assert Voters(s) == Voters(l.chain) + {h0};
      assert Elements(r.ledger.votedAddresses) == Elements(l.votedAddresses) + {h0};
      assert h0 !in Voters(l.chain);
      BallotsPositiveIffVoter(l.chain, h0);
      forall h ensures Ballots(s, h) <= 1 {
        assert Ballots(s, h) == Ballots(l.chain, h) + BallotsIn(b.transactions, h);
        assert BallotsIn(b.transactions, h) == if h == h0 then 1 else 0;
      }
    }
  }

  /** The voter hash of any vote in a block is among that block's voters. */
  lemma {:induction false} VoteInVotersIn(txs: seq<Tx>, j: nat)
    requires j < |txs| && txs[j].Vote?
    ensures txs[j].voterHash in VotersIn(txs)
  {
    if j < |txs| - 1 {
      VoteInVotersIn(txs[..|txs| - 1], j);
    }
  }

  /** The voter of every vote in the chain is among its voters. */
  lemma {:induction false} VoteInVoters(blocks: seq<Block>, i: nat, j: nat)
    requires i < |blocks| && j < |blocks[i].transactions| && blocks[i].transactions[j].Vote?
    ensures blocks[i].transactions[j].voterHash in Voters(blocks)
  {
    if i == |blocks| - 1 {
      VoteInVotersIn(blocks[i].transactions, j);
    } else {
      VoteInVoters(blocks[..|blocks| - 1], i, j);
    }
  }

  /**
   * Under the registry invariant, the vote just appended is the one
   * `verifyVote` reports: its block, that block's hash and the vote's time.
   */
  lemma AddVoteThenVerify(c: Crypto, l: Blockchain, v: VoteRequest, txTime: int, blockTime: int, fuel: nat)
    requires |l.chain| > 0 && RegistryInvariant(l)
    requires AddVote(c, l, v, txTime, blockTime, fuel).result.Ok?
    ensures var r := AddVote(c, l, v, txTime, blockTime, fuel);
      VerifyVote(r.ledger.chain, v.voterHash, v.electionId) == Found(|l.chain|, r.result.value.hash, txTime)
  {
    var r := AddVote(c, l, v, txTime, blockTime, fuel);
    var s := r.ledger.chain;
    var b := r.result.value;
    if AnyMatch(l.chain, v.voterHash, v.electionId) {
      var i, j :| 0 <= i < |l.chain| && 0 <= j < |l.chain[i].transactions|
        && Matches(l.chain[i].transactions[j], v.voterHash, v.electionId);
      VoteInVoters(l.chain, i, j);
      assert false;
    }
    assert s[|l.chain|] == b;
    assert Matches(s[|l.chain|].transactions[0], v.voterHash, v.electionId);
    var rec := VerifyVote(s, v.voterHash, v.electionId);
    var i: nat, j: nat :| FirstMatchAt(s, v.voterHash, v.electionId, i, j)
      && rec == Found(s[i].index, s[i].hash, s[i].transactions[j].timestamp);
    if i < |l.chain| {
      assert false;
    }
  }

  /**
   * Validation never looks at `index`, while the tally skips every block whose
   * `index` is 0: a valid chain can hold a vote that `verifyVote` reports and
   * `getElectionVotes` does not count.
   */
  lemma IndexZeroVoteUncounted()
    ensures var c := Crypto(s => "000", txs => "");
      var g := Block(0, 0, [Marker(GENESIS_KIND, GENESIS_DATA)], GENESIS_PREVIOUS_HASH, 0, "000");
      var b := Block(0, 1, [Vote("h", "k", "e", 1)], "000", 0, "000");
      && ChainValid(c, [g, b])
      && VerifyVote([g, b], "h", "e").Found?
      && CountVotes([g, b], "e", "k") == 0
  {
    var c := Crypto(s => "000", txs => "");
    var g := Block(0, 0, [Marker(GENESIS_KIND, GENESIS_DATA)], GENESIS_PREVIOUS_HASH, 0, "000");
    var b := Block(0, 1, [Vote("h", "k", "e", 1)], "000", 0, "000");
    assert Validate(c, b);
    assert Matches([g, b][1].transactions[0], "h", "e");
    assert [g, b][..1] == [g] && [g][..0] == [];
    assert CountVotes([g], "e", "k") == 0;
  }
}
