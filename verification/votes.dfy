/**
 * The vote routes (backend/routes/votes.js): casting a ballot through its
 * ordered checks into `addVote`, and the two receipt queries.
 *
 * The elections and users files are the sequences `store` and `users`; the
 * authenticated caller is `userId`. `Date.now()` is read three times while a
 * vote is cast: `now` by the route's window check, `txTime` and `blockTime`
 * inside `addVote`.
 */
module Votes {
  import opened Wrappers
  import opened Text
  import opened Blocks
  import opened Chain
  import opened Elections

  const FIELDS_REQUIRED := "electionId and candidateId required"
  const NOT_STARTED := "Election has not started yet"
  const ENDED := "Election has ended"
  const INVALID_CANDIDATE := "Invalid candidate"
  const NO_VOTE_TOKEN := "User not found or missing vote token"
  const ALREADY_VOTED := "You have already voted in this election"
  const USER_NOT_FOUND := "User not found"

  /** The part of a user record these routes read. */
  datatype User = User(id: string, secretToken: Option<string>)

  /** The first user with id `id`, if any. */
  function FindUser(users: seq<User>, id: string): (r: Option<User>)
    ensures r.Some? ==> r.value.id == id
    ensures r.Some? ==> exists k :: 0 <= k < |users| && users[k] == r.value && forall k' :: 0 <= k' < k ==> users[k'].id != id
    ensures r.None? <==> forall k :: 0 <= k < |users| ==> users[k].id != id
  {
    if users == [] then None
    else if users[0].id == id then Some(users[0])
    else FindUser(users[1..], id)
  }

  /** The user exists and has a non-empty vote token. */
  predicate HasToken(u: Option<User>)
  {
    u.Some? && Truthy(u.value.secretToken)
  }

  /** The voter hash of a user with a vote token. */
  function VoterKey(c: Crypto, u: Option<User>): string
    requires HasToken(u)
  {
    GenerateVoterHash(c, u.value.id, u.value.secretToken.value)
  }

  /** The body of `POST /api/votes`. */
  datatype CastRequest = CastRequest(electionId: Option<string>, candidateId: Option<string>)

  /** `Created` is the 201 reply with the new block's position; `Rejected` an error reply. */
  datatype Reply = Created(blockIndex: int) | Rejected(status: int, error: string)

  /** What casting returns, and the ledger and snapshot it leaves. */
  datatype Cast = Cast(ledger: Blockchain, reply: Reply, write: Option<Snapshot>)

  /** Both ids are present and non-empty. */
  predicate Requested(req: CastRequest)
  {
    Truthy(req.electionId) && Truthy(req.candidateId)
  }

  /** The election the request names, if a lookup of its id finds one. */
  function Target(store: seq<Election>, req: CastRequest): (r: Option<Election>)
    requires Requested(req)
    ensures r.Some? <==> FindElection(store, req.electionId.value).Some?
    ensures r.Some? ==> r.value == store[FindElection(store, req.electionId.value).value]
  {
    match Lookup(store, req.electionId.value)
    case Err(_) => None
    case Ok(e) => Some(e)
  }

  /** The election lists a candidate with id `id`. */
  predicate Lists(e: Election, candidateId: string)
  {
    exists k :: 0 <= k < |e.candidates| && e.candidates[k].id == candidateId
  }

  /** Every check before `addVote` passes. */
  predicate Eligible(store: seq<Election>, users: seq<User>, userId: string, req: CastRequest, now: int)
  {
    && Requested(req)
    && Target(store, req).Some?
    && StatusAt(Target(store, req).value, now) == Active
    && Lists(Target(store, req).value, req.candidateId.value)
    && HasToken(FindUser(users, userId))
  }

  /** The ballot `addVote` is given for an eligible request. */
  function Ballot(c: Crypto, users: seq<User>, userId: string, req: CastRequest): VoteRequest
    requires Requested(req) && HasToken(FindUser(users, userId))
  {
    VoteRequest(VoterKey(c, FindUser(users, userId)), req.candidateId.value, req.electionId.value)
  }

  /**
   * `POST /api/votes`. The checks run in order and the first failing one
   * answers; an eligible ballot goes to `addVote`, whose double-vote error is
   * recognised by its message containing "already voted".
   */
  function CastVote(c: Crypto, store: seq<Election>, users: seq<User>, userId: string, l: Blockchain,
                    req: CastRequest, now: int, txTime: int, blockTime: int, fuel: nat): (r: Cast)
    requires |l.chain| > 0
    ensures r.reply == Rejected(400, FIELDS_REQUIRED) <==> !Requested(req)
    ensures r.reply == Rejected(404, NOT_FOUND) <==> Requested(req) && Target(store, req).None?
    ensures r.reply == Rejected(400, NOT_STARTED) <==>
      Requested(req) && Target(store, req).Some? && StatusAt(Target(store, req).value, now) == Upcoming
    ensures r.reply == Rejected(400, ENDED) <==>
      Requested(req) && Target(store, req).Some? && StatusAt(Target(store, req).value, now) == Ended
    ensures r.reply == Rejected(400, INVALID_CANDIDATE) <==>
      && Requested(req) && Target(store, req).Some? && StatusAt(Target(store, req).value, now) == Active
      && !Lists(Target(store, req).value, req.candidateId.value)
    ensures r.reply == Rejected(400, NO_VOTE_TOKEN) <==>
      && Requested(req) && Target(store, req).Some? && StatusAt(Target(store, req).value, now) == Active
      && Lists(Target(store, req).value, req.candidateId.value) && !HasToken(FindUser(users, userId))
    ensures r.reply == Rejected(400, ALREADY_VOTED) <==>
      Eligible(store, users, userId, req, now) && VoterKey(c, FindUser(users, userId)) in l.votedAddresses
    ensures r.reply.Created? <==>
      Eligible(store, users, userId, req, now)
      && AddVote(c, l, Ballot(c, users, userId, req), txTime, blockTime, fuel).result.Ok?
    ensures r.reply.Created? ==>
      var a := AddVote(c, l, Ballot(c, users, userId, req), txTime, blockTime, fuel);
      && r.ledger == a.ledger && r.write == a.write
      && r.reply.blockIndex == |l.chain|
      && r.ledger.chain[|l.chain|].transactions == [Vote(VoterKey(c, FindUser(users, userId)), req.candidateId.value, req.electionId.value, txTime)]
    ensures r.reply.Rejected? && r.reply.status == 500 <==>
      && Eligible(store, users, userId, req, now) && VoterKey(c, FindUser(users, userId)) !in l.votedAddresses
      && AddVote(c, l, Ballot(c, users, userId, req), txTime, blockTime, fuel).result.Err?
    ensures !r.reply.Created? ==> r.ledger == l && r.write.None?
  {
    if !Requested(req) then Cast(l, Rejected(400, FIELDS_REQUIRED), None)
    else
      match FindElection(store, req.electionId.value)
      case None => Cast(l, Rejected(404, NOT_FOUND), None)
      case Some(i) =>
        var e := store[i];
        if now < e.startTime then Cast(l, Rejected(400, NOT_STARTED), None)
        else if now > e.endTime then Cast(l, Rejected(400, ENDED), None)
        else if !Lists(e, req.candidateId.value) then Cast(l, Rejected(400, INVALID_CANDIDATE), None)
        else
          var u := FindUser(users, userId);
          if !HasToken(u) then Cast(l, Rejected(400, NO_VOTE_TOKEN), None)
          else
            var a := AddVote(c, l, VoteRequest(VoterKey(c, u), req.candidateId.value, req.electionId.value),
                             txTime, blockTime, fuel);
            match a.result
            case Ok(_) => Cast(a.ledger, Created(|a.ledger.chain| - 1), a.write)
            case Err(err) =>
              DoubleVoteSaysAlreadyVoted();
              MiningErrorIsNotDoubleVote();
              if Contains(ErrorMessage(err), "already voted") then Cast(l, Rejected(400, ALREADY_VOTED), None)
              else Cast(l, Rejected(500, ErrorMessage(err)), None)
  }

  /** The double-vote error's message is the one the route recognises. */
  lemma DoubleVoteSaysAlreadyVoted()
    ensures Contains(ErrorMessage(DoubleVote), "already voted")
  {
    var s := DOUBLE_VOTE_MESSAGE;
    assert s[49..62] == "already voted";
    ContainsAt(s, "already voted", 49);
  }

  /** The mining error's message is not mistaken for a double vote. */
  lemma MiningErrorIsNotDoubleVote()
    ensures !Contains(ErrorMessage(MiningExhausted), "already voted")
  {
    var s := ErrorMessage(MiningExhausted);
    var sub := "already voted";
    assert sub[6] == 'y';
    assert Lacks(s, 'y');
    if Contains(s, sub) {
      LacksPassesToPart(s, sub, 'y');
    }
  }

  /** `GET /api/votes/verify/:electionId`: the caller's receipt, or 400 without a vote token. */
  function VerifyMine(c: Crypto, users: seq<User>, userId: string, l: Blockchain, electionId: string)
    : (r: Result<Receipt, ApiError>)
    ensures r.Err? <==> !HasToken(FindUser(users, userId))
    ensures r.Err? ==> r.error == ApiError(400, USER_NOT_FOUND)
    ensures r.Ok? ==> (r.value.NotFound? <==> !AnyMatch(l.chain, VoterKey(c, FindUser(users, userId)), electionId))
    ensures r.Ok? ==> forall i: nat, j: nat :: FirstMatchAt(l.chain, VoterKey(c, FindUser(users, userId)), electionId, i, j) ==>
      r.value == Found(l.chain[i].index, l.chain[i].hash, l.chain[i].transactions[j].timestamp)
  {
    var u := FindUser(users, userId);
    if !HasToken(u) then Err(ApiError(400, USER_NOT_FOUND))
    else Ok(VerifyVote(l.chain, VoterKey(c, u), electionId))
  }

  /** `GET /api/votes/has-voted/:electionId`: `false` for a caller without a vote token. */
  function HasVoted(c: Crypto, users: seq<User>, userId: string, l: Blockchain, electionId: string): (r: bool)
    ensures r <==> HasToken(FindUser(users, userId))
                   && AnyMatch(l.chain, VoterKey(c, FindUser(users, userId)), electionId)
  {
    var u := FindUser(users, userId);
    HasToken(u) && VerifyVote(l.chain, VoterKey(c, u), electionId).Found?
  }

  /** After a vote is recorded, the caller is reported as having voted in that election. */
  lemma CastThenHasVoted(c: Crypto, store: seq<Election>, users: seq<User>, userId: string, l: Blockchain,
                         req: CastRequest, now: int, txTime: int, blockTime: int, fuel: nat)
    requires |l.chain| > 0
    requires CastVote(c, store, users, userId, l, req, now, txTime, blockTime, fuel).reply.Created?
    ensures HasVoted(c, users, userId, CastVote(c, store, users, userId, l, req, now, txTime, blockTime, fuel).ledger,
                     req.electionId.value)
  {
    var r := CastVote(c, store, users, userId, l, req, now, txTime, blockTime, fuel);
    var h := VoterKey(c, FindUser(users, userId));
    assert Matches(r.ledger.chain[|l.chain|].transactions[0], h, req.electionId.value);
  }

  /**
   * After a vote is recorded on a ledger that keeps the registry invariant,
   * the caller's receipt names the new block.
   */
  lemma CastThenVerify(c: Crypto, store: seq<Election>, users: seq<User>, userId: string, l: Blockchain,
                       req: CastRequest, now: int, txTime: int, blockTime: int, fuel: nat)
    requires |l.chain| > 0 && RegistryInvariant(l)
    requires CastVote(c, store, users, userId, l, req, now, txTime, blockTime, fuel).reply.Created?
    ensures var r := CastVote(c, store, users, userId, l, req, now, txTime, blockTime, fuel);
      VerifyMine(c, users, userId, r.ledger, req.electionId.value)
        == Ok(Found(r.reply.blockIndex, r.ledger.chain[r.reply.blockIndex].hash, txTime))
  {
    var v := Ballot(c, users, userId, req);
    AddVoteThenVerify(c, l, v, txTime, blockTime, fuel);
  }

  /**
   * The voter hash does not depend on the election, so once a vote is
   * recorded, the same user's eligible ballot in any election, this one or
   * another, is refused as a double vote.
   */
  lemma OneVoteAcrossElections(c: Crypto, store: seq<Election>, users: seq<User>, userId: string, l: Blockchain,
                               req: CastRequest, now: int, txTime: int, blockTime: int, fuel: nat,
                               req2: CastRequest, now2: int, txTime2: int, blockTime2: int, fuel2: nat)
    requires |l.chain| > 0
    requires CastVote(c, store, users, userId, l, req, now, txTime, blockTime, fuel).reply.Created?
    requires Eligible(store, users, userId, req2, now2)
    ensures var l' := CastVote(c, store, users, userId, l, req, now, txTime, blockTime, fuel).ledger;
      CastVote(c, store, users, userId, l', req2, now2, txTime2, blockTime2, fuel2).reply
        == Rejected(400, ALREADY_VOTED)
  {
  }

  /** Casting keeps the registry invariant, so no voter hash is ever on the chain twice. */
  lemma CastKeepsRegistry(c: Crypto, store: seq<Election>, users: seq<User>, userId: string, l: Blockchain,
                          req: CastRequest, now: int, txTime: int, blockTime: int, fuel: nat)
    requires |l.chain| > 0 && RegistryInvariant(l)
    ensures RegistryInvariant(CastVote(c, store, users, userId, l, req, now, txTime, blockTime, fuel).ledger)
  {
    if Eligible(store, users, userId, req, now) {
      AddVoteKeepsRegistry(c, l, Ballot(c, users, userId, req), txTime, blockTime, fuel);
    }
  }
}
