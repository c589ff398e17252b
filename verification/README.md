# Ballot Box vote ledger, modelled in Dafny

Ballot Box records each cast vote as one proof-of-work block on an append-only
hash chain. A registry of voter hashes refuses a second vote from the same voter.
Election routes read a per-candidate tally from the chain, and a public audit
endpoint lists the chain without the vote contents.

This project models that core:

- the `Block` class: content hash, construction, mining, self-validation;
- the `Blockchain` class: genesis and snapshot start-up, saving, `addVote`,
  `isChainValid`, `getElectionVotes`, `verifyVote`, `generateVoterHash`;
- the difficulty constant;
- the pure decisions of the election and vote routes;
- the audit projection of `GET /api/blockchain`.

Modules, one per file:

- `Wrappers`: `Option` and `Result`.
- `Text`: decimal rendering of integers, `substring`, `repeat`, `includes`.
- `ProofOfWork`: `DIFFICULTY`.
- `Blocks`: blocks, hashing and mining.
- `Counters`: the tally object as an association list.
- `Chain`: the ledger.
- `Audit`: the audit endpoint.
- `Elections`: the election routes.
- `Votes`: the vote routes.

SHA-256 and `JSON.stringify` are the two function-typed fields of a `Crypto`
value. The model treats them as arbitrary functions and never assumes they are
injective.

`Date.now()` readings, uuids and the caller's id are parameters. The data files
are values passed in. An operation that writes returns the snapshot it would
write.

## Model

| member | source | states |
|---|---|---|
| Blocks.CalculateHash | backend/blockchain/Block.js:21-37 | The hash is SHA-256 of one text: `index + timestamp` as one number, then SHA-256 of the JSON of the transactions, then the previous hash, then the nonce. The stored hash is not an input |
| Blocks.Validate | backend/blockchain/Block.js:53-56 | A block validates exactly when its stored hash equals SHA-256 of that text. No other block and no link is looked at |
| Blocks.NewBlock | backend/blockchain/Block.js:8-15 | A new block carries the given index, timestamp, transactions and previous hash, has nonce 0, and its stored hash is its content hash, so `validate()` holds at once |
| Blocks.Reseal | backend/blockchain/Block.js:45-46 | One mining step raises the nonce by one and rehashes. Index, timestamp, transactions and previous hash are kept, and `validate()` holds afterwards |
| Blocks.Mine | backend/blockchain/Block.js:42-48 | Mining succeeds only with a hash whose first `d` characters are zeros, and content is unchanged. The nonce found is the first sealing nonce after the start. An already sealed block comes back unchanged. Validity is preserved. Failure means no nonce within the fuel seals |
| Blocks.MineBlock | backend/blockchain/Block.js:42-48 | The imperative `while` loop reaches the same block as `Mine`, sealed and with the same content |
| Blocks.SealedMeansLeadingZeros | backend/blockchain/Block.js:43-44 | The loop's exit test holds exactly when the hash has at least `d` characters and the first `d` are all `'0'` |
| Blocks.MineZeroDifficulty | backend/blockchain/Block.js:43-44 | Mining with difficulty 0 leaves the block as it is |
| Blocks.MineIdempotent | backend/blockchain/Block.js:43-44 | Mining an already mined block again changes nothing |
| Blocks.HashReadsContentOnly | backend/blockchain/Block.js:21-37 | Two blocks with the same index, timestamp, transactions, previous hash and nonce have the same content hash, whatever hash they store |
| Blocks.HashSeesIndexPlusTimestamp | backend/blockchain/Block.js:30-34 | Index and timestamp are summed numerically before hashing. Moving an amount from one to the other therefore keeps the hash |
| Counters.Bump | backend/blockchain/Blockchain.js:130 | Counting a vote for `k`: `k` gains one vote, all other counts are unchanged, `k` joins the keys, the total grows by one, and a well-formed tally stays well-formed |
| Chain.CreateGenesisBlock | backend/blockchain/Blockchain.js:23-25 | The genesis block has index 0, previous hash `'0'`, nonce 0, the single marker transaction `{type: 'genesis', data: 'Ballot Box Genesis'}`, and a valid hash |
| Chain.GenesisNotMined | backend/blockchain/Blockchain.js:23-25 | The genesis block is not mined: under some hash function its hash does not start with `DIFFICULTY` zeros |
| Chain.Restore | backend/blockchain/Blockchain.js:34-40 | The block these lines mean to rebuild: every stored field kept, missing transactions read as the empty list. Only `Chain.InitIntended` reaches it (see Findings) |
| Chain.Dedup | backend/blockchain/Blockchain.js:41 | `new Set(list)` spread back into a list holds no repeats and exactly the list's elements |
| Chain.DedupKeepsFirstOccurrenceOrder | backend/blockchain/Blockchain.js:41 | The set lists its elements in the order of their first occurrence in the list |
| Chain.DedupOfDistinct | backend/blockchain/Blockchain.js:41 | A list with no repeats goes through the set unchanged |
| Chain.Save | backend/blockchain/Blockchain.js:56-61 | The file gets every block of the chain, in order and field for field, and the voted set as a list in its order |
| Chain.Init | backend/blockchain/Blockchain.js:30-51 | As written: whatever the file holds, start-up ends with one genesis block, an empty voted set and that state written over the file. A stored chain is lost because rebuilding its first block throws (see Findings) |
| Chain.InitIntended | backend/blockchain/Blockchain.js:30-51 | As intended: a file with a non-empty chain is restored block by block, its voted list becomes the voted set, and nothing is written. Any other file gives what `Chain.Init` gives. Either way the ledger is ready: non-empty chain, difficulty `DIFFICULTY`, no repeated voter |
| Chain.SaveThenInit | backend/blockchain/Blockchain.js:30-61 | Saving a ready ledger and starting again from that file with the intended start-up gives the same ledger back |
| Chain.RestartForgetsVotes | backend/blockchain/Blockchain.js:34-50 | As written, after a recorded vote, a restart from the file that vote wrote leaves only a genesis block, and the same voter hash is no longer refused as a double vote |
| Chain.GetLatestBlock | backend/blockchain/Blockchain.js:66-68 | The tip is the last block, and the chain is everything before it followed by the tip |
| Chain.AddVote | backend/blockchain/Blockchain.js:74-101 | A known voter hash fails with the double-vote error. A new voter's vote fails exactly when mining the pending block (the vote alone, linked to the tip) finds no nonce within the fuel; otherwise the appended block is the mined one. Every failure leaves the ledger unchanged with nothing written. On success, see the list after the table |
| Chain.NewVoterAppendedAtZeroDifficulty | backend/blockchain/Blockchain.js:88-100 | Where mining needs no search (difficulty 0), a new voter's vote is appended whatever the fuel |
| Chain.AddVoteKeepsReady | backend/blockchain/Blockchain.js:74-101 | An append keeps the chain non-empty, the difficulty fixed, and the voted set free of repeats |
| Chain.AppendedBlockHasLeadingZeros | backend/blockchain/Blockchain.js:95 | Every block appended to a ready ledger has a hash starting with `"000"` |
| Chain.AppendSurvivesRestart | backend/blockchain/Blockchain.js:96-98 | Starting again from the snapshot an append writes, with the intended start-up, gives the appended ledger |
| Chain.IsChainValid | backend/blockchain/Blockchain.js:106-119 | The loop answers true exactly when every block from position 1 on validates and its previous hash equals its predecessor's hash |
| Chain.AddVoteKeepsChainValid | backend/blockchain/Blockchain.js:88-96 | Appending a vote to a valid chain leaves a valid chain |
| Chain.TamperedHashDetected | backend/blockchain/Blockchain.js:111-113 | Overwriting the stored hash of any block after the first with a wrong value makes the chain invalid |
| Chain.GenesisContentUnchecked | backend/blockchain/Blockchain.js:107 | Validation starts at position 1: replacing block 0 by any block with the same stored hash keeps a valid chain valid |
| Chain.IndexZeroVoteUncounted | backend/blockchain/Blockchain.js:127 | Validation never compares indices, but the tally skips blocks by `index === 0`. A valid chain can therefore hold a vote that `verifyVote` finds and the tally does not count |
| Chain.TallyTxs | backend/blockchain/Blockchain.js:128-132 | Counting one block's transactions adds, per candidate, that block's votes in the election for it, and the election's votes to the total |
| Chain.GetElectionVotes | backend/blockchain/Blockchain.js:124-135 | Each candidate's count is the number of its votes in the election over blocks whose index is not 0. The counts sum to all such votes in the election, and the result is a well-formed tally |
| Chain.TallyKeys | backend/blockchain/Blockchain.js:124-135 | A candidate id is a key of the tally exactly when it received a vote in that election |
| Chain.TallyEmptyIffNoVotes | backend/blockchain/Blockchain.js:124-135 | The tally is the empty object exactly when the election has no counted vote, so an unknown election tallies to `{}` |
| Chain.AddVoteCountsOnce | backend/blockchain/Blockchain.js:81-100 | A successful append adds exactly one vote: to its own candidate in its own election, and to no other count |
| Chain.FirstMatch | backend/blockchain/Blockchain.js:143-151 | Position of the first transaction in a block with the given voter hash and election id. It is absent exactly when none matches |
| Chain.Locate | backend/blockchain/Blockchain.js:142-154 | Block and transaction of the first match in chain order. It is absent exactly when nothing in the chain matches |
| Chain.VerifyVote | backend/blockchain/Blockchain.js:141-155 | The receipt says `exists: false` exactly when no transaction matches both the voter hash and the election. Otherwise it reports the first match's block index, block hash and vote time, and carries no candidate |
| Chain.KeyText | backend/blockchain/Blockchain.js:161 | The hashed text is the id, then one colon, then the token |
| Chain.GenerateVoterHash | backend/blockchain/Blockchain.js:160-162 | The voter hash is SHA-256 of that text, so it depends on the user's id and token and on no election |
| Chain.VoterKeyDeterminesParts | backend/blockchain/Blockchain.js:160-162 | With colon-free user ids, the hashed text `id:token` determines both the id and the token |
| Chain.GenesisRegistry | backend/blockchain/Blockchain.js:48-49 | The ledger that start-up gives has no voters and no ballots, so its voted set equals the chain's voters |
| Chain.AddVoteKeepsRegistry | backend/blockchain/Blockchain.js:74-101 | If the voted set equals the set of voters on the chain and no voter has two votes, an append keeps both facts. This holds across all elections |
| Chain.AddVoteThenVerify | backend/blockchain/Blockchain.js:141-155 | Under that registry invariant, `verifyVote` for the vote just appended reports the new block's position, its hash and the vote's time |
| Audit.AuditChain | backend/server.js:39-61 | One entry per block, in chain order. Each entry copies index, timestamp, previous hash, hash and nonce, and gives the transaction count. The `isValid` flag equals `isChainValid()` |
| Audit.AuditHidesVoteContents | backend/server.js:44-51 | Ledgers that differ only in what their transactions say give identical listings |
| Audit.AuditAfterVote | backend/server.js:53-56 | After a vote the listing gains one entry: at the next index, with one transaction. A valid chain stays reported valid |
| Elections.StatusAt | backend/routes/elections.js:73 | `upcoming` exactly when `now < startTime`, `ended` exactly when `startTime <= now` and `now > endTime`, `active` exactly when `startTime <= now <= endTime` (both ends inclusive) |
| Elections.FindElection | backend/routes/elections.js:94 | The position of the first election with the id. It is absent exactly when no election has it |
| Elections.ListElections | backend/routes/elections.js:46-61 | Every stored election in order, each with its status at `now` as `StatusAt` gives it, so active exactly within its inclusive window |
| Elections.NumberCandidates | backend/routes/elections.js:26-30 | Candidate `i` gets the `i`-th name, order `first + i` and the next generated id |
| Elections.CreateElection | backend/routes/elections.js:10-43 | See the list after the table |
| Elections.CreatedCandidatesOrdered | backend/routes/elections.js:26-30 | A created election's candidates are numbered 0..n-1 in input order, each with its own generated id |
| Elections.CreatedElectionIsFound | backend/routes/elections.js:20-35 | When no stored election has the new id, looking that id up in the new store finds exactly the created election |
| Elections.DefaultWindowIsOneWeek | backend/routes/elections.js:24-25 | Without start and end times, a new election is listed as active at creation and through exactly one week later, ended a millisecond after, and upcoming just before |
| Elections.UpdateElection | backend/routes/elections.js:90-109 | 404 exactly when the id is unknown. Otherwise only that election changes: a truthy title or start or end time replaces the stored one, a defined description replaces it, and everything else is kept |
| Elections.EmptyUpdateChangesNothing | backend/routes/elections.js:99-102 | An update that supplies no field leaves the store unchanged |
| Elections.AddCandidates | backend/routes/elections.js:112-135 | 404 exactly when the id is unknown. For a known id, 400 exactly when `now >= startTime`, and success otherwise. On success only the candidate list of that election grows. The existing candidates are kept, and the new ones follow in input order with orders continuing from the current count |
| Elections.AddCandidatesKeepsOrder | backend/routes/elections.js:124-129 | Candidates numbered 0..n-1 stay numbered 0..n+k-1 after adding k |
| Elections.SingleNameIsWrapped | backend/routes/elections.js:124 | A single non-array value is added as a one-element list |
| Elections.Lookup | backend/routes/elections.js:141-144 | `find` by id, answering 404 `Election not found` exactly when there is none |
| Elections.Detail | backend/routes/elections.js:63-87 | 404 exactly when the id is unknown. Otherwise: the election, its status, a well-formed tally whose keys are exactly the candidates with a vote in that election and whose counts are those votes, and `totalVotes` equal to the election's counted votes |
| Elections.Rows | backend/routes/elections.js:152-155 | One row per candidate in stored order, whose votes are the tally's count for its id or 0 |
| Elections.Results | backend/routes/elections.js:138-165 | 404 exactly when the id is unknown. Otherwise each candidate's row shows its votes on the chain in this election, and `totalVotes` is the election's counted votes |
| Elections.ResultsWithinTotal | backend/routes/elections.js:152-160 | With distinct candidate ids, the rows never show more votes than `totalVotes` |
| Elections.DetailAgreesWithResults | backend/routes/elections.js:76-82 | The detail page and the results page report the same status and the same total |
| Elections.ForeignVoteOnlyInTotal | backend/routes/elections.js:160 | A vote recorded under an id that is not a candidate of the election counts in `totalVotes` but in no row |
| Votes.FindUser | backend/routes/votes.js:37 | The first user with the id. It is absent exactly when no user has it |
| Votes.Target | backend/routes/votes.js:18 | The first election with the requested id, if any |
| Votes.CastVote | backend/routes/votes.js:10-63 | See the list after the table |
| Votes.DoubleVoteSaysAlreadyVoted | backend/routes/votes.js:57-59 | The ledger's double-vote message contains `already voted`, so that failure is reported as 400 |
| Votes.MiningErrorIsNotDoubleVote | backend/routes/votes.js:60-61 | Any other failure's message does not contain `already voted` and is reported as 500 |
| Votes.VerifyMine | backend/routes/votes.js:66-83 | 400 `User not found` exactly when the user or their token is missing. Otherwise the ledger's receipt for the user's voter hash: absent exactly when no vote of theirs is in that election, else the block index, block hash and vote time of the first such vote |
| Votes.HasVoted | backend/routes/votes.js:86-103 | True exactly when the user has a token and some transaction on the chain matches their voter hash and the election. False when the user or token is missing |
| Votes.CastThenHasVoted | backend/routes/votes.js:95-99 | After a vote is recorded, `has-voted` for that election answers true |
| Votes.CastThenVerify | backend/routes/votes.js:75-79 | On a ledger that keeps the registry invariant, a recorded vote's receipt names the reported block index, that block's hash and the vote time |
| Votes.OneVoteAcrossElections | backend/routes/votes.js:42-49 | The voter hash does not involve the election. After one recorded vote, the same user's otherwise admissible ballot in any election is refused as already voted |
| Votes.CastKeepsRegistry | backend/routes/votes.js:42-49 | Casting, accepted or refused, keeps the registry invariant, so no voter hash is ever on the chain twice |

What a successful `Chain.AddVote` guarantees:

- the chain is the old chain plus one block;
- the new block's index is the old length;
- its timestamp is the block time;
- its previous hash is the old tip's hash;
- its transactions are exactly one vote with the given voter hash, candidate, election and vote time;
- its nonce is not negative;
- it validates, and its hash meets the difficulty;
- the voter hash joins the voted set;
- the difficulty is unchanged;
- the new state is saved.

What `Elections.CreateElection` guarantees:

- it answers 400 exactly when the title is not truthy, or `candidates` is not an array, or it has fewer than 2 entries;
- otherwise the store gains the new election, whose:
  - id is the first generated id;
  - description is the given one or `''`;
  - start time is the given one or `now`;
  - end time is the given one or `now` plus seven days;
  - candidate `i` has the `i`-th name, order `i` and the next generated id;
  - creator and creation time are recorded.

What `Votes.CastVote` guarantees:

- the checks answer in this order, each exactly when the ones before it pass:
  1. a missing id (400);
  2. an unknown election (404);
  3. an upcoming election (400);
  4. an ended election (400);
  5. an unknown candidate (400);
  6. a missing user or token (400);
- a known voter hash gets 400 `You have already voted in this election`;
- a failed append gets 500;
- a success reports `blockIndex` equal to the index of the block just appended;
- every refusal leaves the ledger unchanged and writes nothing.

## Findings

| source | as written | input that shows it | evidently intended | confidence | as-written member | corrected member |
|---|---|---|---|---|---|---|
| backend/blockchain/Blockchain.js:36 | Each stored block is rebuilt as `Object.assign(new Block(), ...)`. The bare constructor computes a hash of `JSON.stringify(undefined)`, which is `undefined`, and Node's hash `update` throws on it. The `catch` at line 44 swallows the error, and lines 48-50 write a fresh genesis chain over the file | A data file holding the genesis block and one vote block, with that vote's voter hash in `votedAddresses`, as the first vote writes it. After a restart the chain is one new genesis block, the voted set is empty, and the same user can vote again | Restore each stored block with its fields and the voted set from the file, and write nothing | not executed | Chain.Init, Chain.RestartForgetsVotes | Chain.InitIntended, Chain.SaveThenInit, Chain.AppendSurvivesRestart |

## Left out

- SHA-256 and `JSON.stringify` are not modelled. They are arbitrary functions in `Crypto`, with no collision resistance assumed.
- Blocks.Mine: the source loops until the hash meets the target, and its termination cannot be shown over an arbitrary hash. The model searches at most `fuel` nonces and reports `None` when they run out.
- Chain.AddVote: the `MiningExhausted` error exists only because of that fuel bound, and its contract says it is returned exactly when `Blocks.Mine` runs out of fuel on the pending block; the source has no such error.
- File I/O is not modelled. `backend/utils/storage.js` is not part of this model. Reads are an optional snapshot passed in and writes are the returned snapshot. A failing read or write, and the 500 replies of the routes' `catch` blocks for such failures, are not modelled.
- A snapshot whose `chain` is not an array, or whose blocks lack fields other than `transactions`, is not modelled. A file that cannot be parsed counts as no snapshot.
- The lazy singleton in `backend/utils/initBlockchain.js` is not part of this model. Neither is any interleaving of concurrent requests across `await`s.
- Authentication (`backend/middleware/auth.js`, `backend/routes/auth.js`) is not part of this model. The caller's id is a parameter, and admin-only routes are assumed already admitted.
- Only the audit endpoint of `backend/server.js` is modelled. Express setup, admin seeding and the whole frontend are not.
- Elections.CreateElection: the three `Date.now()` calls of one creation are one `now`.
- Elections.CreateElection and Elections.UpdateElection: request times arrive already converted by `new Date(..).getTime()`. A falsy raw value (`0`, `''`, absent) is passed as `None`. Date-string parsing and `NaN` results are not modelled.
- Elections.AddCandidates: a request without a `candidates` field would add one candidate named `undefined` in the source. The model always receives a name or a list of names.
- Candidate names, titles and ids are strings; the source accepts any JSON value there.
- Blocks.Tx: a transaction is either the genesis marker or a vote. Other JSON objects in an edited data file are not modelled.
- Integers are unbounded. Timestamps are integral milliseconds rendered as plain decimal digits. JavaScript's double precision and its exponent notation above 10^21 are not modelled.
- Counters.Bump: tally keys are kept in first-vote order. JavaScript lists integer-like keys first, which changes only key order and is not modelled. The tally is a plain object, so a candidate id that names an `Object.prototype` member behaves differently in the source: under `__proto__` the sum `(votes[k] || 0) + 1` is a string the prototype setter ignores, so the vote vanishes from the tally and from `totalVotes`; under a name such as `toString` or `constructor` the count becomes a string and `totalVotes` a string concatenation. The model counts such ids like any other. The vote route cannot produce them, since it admits only a candidate id the election lists, and those are generated uuids.
- The `Block` constructor's default `previousHash = ''` is not modelled: every modelled construction passes a previous hash. The argument-less `new Block()` of start-up is modelled only by its effect, the thrown error that sends start-up to a fresh genesis chain (see Findings).
- `pendingVotes` is assigned in the constructor and never used, so it is left out. `getChain()` returns the chain field.
- Votes.CastVote: the fallback message `'Failed to cast vote'` is not modelled, because every modelled failure carries a message.
