/**
 * The pure decisions of the election routes (backend/routes/elections.js):
 * the status rule, creation and its validation, field updates, adding
 * candidates before the start, and the merge of the tally into results.
 *
 * The elections file is the sequence `store`; `Date.now()` is `now`; the
 * `uuidv4()` calls of one request are the supply `newId`, whose k-th value is
 * the k-th id generated. Request time fields arrive already converted by
 * `new Date(..).getTime()`.
 */
module Elections {
  import opened Wrappers
  import opened Text
  import opened Counters
  import opened Blocks
  import opened Chain

  /** Seven days in milliseconds, the default length of an election. */
  const WEEK_MS: int := 7 * 24 * 60 * 60 * 1000

  const CREATE_INVALID := "Title and at least 2 candidates required"
  const NOT_FOUND := "Election not found"
  const ALREADY_STARTED := "Cannot add candidates after election has started"

  datatype Candidate = Candidate(id: string, name: string, order: int)

  datatype Election = Election(
    id: string,
    title: string,
    description: string,
    startTime: int,
    endTime: int,
    candidates: seq<Candidate>,
    createdBy: string,
    createdAt: int)

  datatype Status = Upcoming | Active | Ended

  /** An error reply: HTTP status and `error` text. */
  datatype ApiError = ApiError(status: int, message: string)

  /** JavaScript truthiness of an optional string: present and non-empty. */
  predicate Truthy(s: Option<string>)
  {
    s.Some? && s.value != ""
  }

  /** Upcoming before the start time, ended after the end time, active in between (both ends included). */
  function StatusAt(e: Election, now: int): (s: Status)
    ensures s == Upcoming <==> now < e.startTime
    ensures s == Ended <==> e.startTime <= now && e.endTime < now
    ensures s == Active <==> e.startTime <= now <= e.endTime
  {
    if now < e.startTime then Upcoming else if now > e.endTime then Ended else Active
  }

  /** The position of the first election with id `id`, if any. */
  function FindElection(store: seq<Election>, id: string): (r: Option<nat>)
    ensures r.Some? ==> r.value < |store| && store[r.value].id == id
    ensures r.Some? ==> forall i :: 0 <= i < r.value ==> store[i].id != id
    ensures r.None? ==> forall i :: 0 <= i < |store| ==> store[i].id != id
  {
    if store == [] then None
    else if store[0].id == id then Some(0)
    else
      match FindElection(store[1..], id)
      case None => None
      case Some(i) => Some(i + 1)
  }

  /** An election as listed by `GET /api/elections`, with its status. */
  datatype Listed = Listed(election: Election, status: Status)

  /** `GET /api/elections`: every stored election, in order, with its status at `now`. */
  function ListElections(store: seq<Election>, now: int): (r: seq<Listed>)
    ensures |r| == |store|
    ensures forall i :: 0 <= i < |store| ==> r[i].election == store[i]
    ensures forall i :: 0 <= i < |store| ==>
      (r[i].status == Active <==> store[i].startTime <= now <= store[i].endTime)
    ensures forall i :: 0 <= i < |store| ==> r[i].status == StatusAt(store[i], now)
  {
    seq(|store|, i requires 0 <= i < |store| => Listed(store[i], StatusAt(store[i], now)))
  }

  // ------------------------------------------------------------------ create

  /** The body of `POST /api/elections`; `candidates` is `None` when it is missing or not an array. */
  datatype CreateRequest = CreateRequest(
    title: Option<string>,
    description: Option<string>,
    startTime: Option<int>,
    endTime: Option<int>,
    candidates: Option<seq<string>>)

  /** Candidates named `names`, ordered from `first`, with ids `newId(idBase)`, `newId(idBase + 1)`, ... */
  function NumberCandidates(names: seq<string>, first: int, newId: nat -> string, idBase: nat): (r: seq<Candidate>)
    ensures |r| == |names|
    ensures forall i :: 0 <= i < |names| ==> r[i] == Candidate(newId(idBase + i), names[i], first + i)
  {
    seq(|names|, i requires 0 <= i < |names| => Candidate(newId(idBase + i), names[i], first + i))
  }

  /**
   * `POST /api/elections`: refused unless there is a title and at least two
   * candidates; otherwise the new election is appended to the store.
   */
  function CreateElection(store: seq<Election>, req: CreateRequest, now: int, userId: string, newId: nat -> string)
    : (r: Result<(seq<Election>, Election), ApiError>)
    ensures r.Err? <==> !Truthy(req.title) || req.candidates.None? || |req.candidates.value| < 2
    ensures r.Err? ==> r.error == ApiError(400, CREATE_INVALID)
    ensures r.Ok? ==>
      var e := r.value.1;
      var names := req.candidates.value;
      && r.value.0 == store + [e]
      && e.id == newId(0)
      && e.title == req.title.value
      && e.description == (if Truthy(req.description) then req.description.value else "")
      && e.startTime == (if req.startTime.Some? then req.startTime.value else now)
      && e.endTime == (if req.endTime.Some? then req.endTime.value else now + WEEK_MS)
      && |e.candidates| == |names|
      && (forall i :: 0 <= i < |names| ==> e.candidates[i] == Candidate(newId(i + 1), names[i], i))
      && e.createdBy == userId && e.createdAt == now
  {
    if !Truthy(req.title) || req.candidates.None? || |req.candidates.value| < 2 then
      Err(ApiError(400, CREATE_INVALID))
    else
      var e := Election(
        newId(0),
        req.title.value,
        if Truthy(req.description) then req.description.value else "",
        if req.startTime.Some? then req.startTime.value else now,
        if req.endTime.Some? then req.endTime.value else now + WEEK_MS,
        NumberCandidates(req.candidates.value, 0, newId, 1),
        userId,
        now);
      Ok((store + [e], e))
  }

  /** Candidate `i` of the list carries `order == i`. */
  predicate OrderedFromZero(cs: seq<Candidate>)
  {
    forall i :: 0 <= i < |cs| ==> cs[i].order == i
  }

  /** A created election lists its candidates in order from 0, each under a fresh id. */
  lemma CreatedCandidatesOrdered(store: seq<Election>, req: CreateRequest, now: int, userId: string, newId: nat -> string)
    requires CreateElection(store, req, now, userId, newId).Ok?
    ensures var e := CreateElection(store, req, now, userId, newId).value.1;
      && OrderedFromZero(e.candidates)
      && forall i :: 0 <= i < |e.candidates| ==> e.candidates[i].id == newId(i + 1)
  {
  }

  /** When no stored election has the new id, the created election is what a lookup of that id finds. */
  lemma CreatedElectionIsFound(store: seq<Election>, req: CreateRequest, now: int, userId: string, newId: nat -> string)
    requires CreateElection(store, req, now, userId, newId).Ok?
    requires FindElection(store, newId(0)).None?
    ensures var r := CreateElection(store, req, now, userId, newId).value;
      Lookup(r.0, newId(0)) == Ok(r.1)
  {
    var r := CreateElection(store, req, now, userId, newId).value;
    assert r.0[|store|] == r.1;
    assert forall i :: 0 <= i < |store| ==> r.0[i] == store[i];
  }

  /** Without explicit times, a new election is listed as active from its creation through one week later. */
  lemma DefaultWindowIsOneWeek(store: seq<Election>, req: CreateRequest, now: int, userId: string, newId: nat -> string)
    requires CreateElection(store, req, now, userId, newId).Ok?
    requires req.startTime.None? && req.endTime.None?
    ensures var r := CreateElection(store, req, now, userId, newId).value;
      && ListElections(r.0, now)[|store|] == Listed(r.1, Active)
      && StatusAt(r.1, now + WEEK_MS) == Active
      && StatusAt(r.1, now + WEEK_MS + 1) == Ended
      && StatusAt(r.1, now - 1) == Upcoming
  {
  }

  // ------------------------------------------------------------------ update

  /** The body of `PUT /api/elections/:id`; `description` is `None` only when it is `undefined`. */
  datatype UpdateRequest = UpdateRequest(
    title: Option<string>,
    description: Option<string>,
    startTime: Option<int>,
    endTime: Option<int>)

  /** `PUT /api/elections/:id`: overwrite the supplied fields of the first election with that id. */
  function UpdateElection(store: seq<Election>, id: string, req: UpdateRequest)
    : (r: Result<(seq<Election>, Election), ApiError>)
    ensures r.Err? <==> FindElection(store, id).None?
    ensures r.Err? ==> r.error == ApiError(404, NOT_FOUND)
    ensures r.Ok? ==>
      var i := FindElection(store, id).value;
      var stored := store[i];
      var e := r.value.1;
      && |r.value.0| == |store|
      && r.value.0[i] == e
      && (forall j :: 0 <= j < |store| && j != i ==> r.value.0[j] == store[j])
      && e.title == (if Truthy(req.title) then req.title.value else stored.title)
      && e.description == (if req.description.Some? then req.description.value else stored.description)
      && e.startTime == (if req.startTime.Some? then req.startTime.value else stored.startTime)
      && e.endTime == (if req.endTime.Some? then req.endTime.value else stored.endTime)
      && e.id == stored.id && e.candidates == stored.candidates
      && e.createdBy == stored.createdBy && e.createdAt == stored.createdAt
  {
    match FindElection(store, id)
    case None => Err(ApiError(404, NOT_FOUND))
    case Some(i) =>
      var e0 := store[i];
      var e1 := if Truthy(req.title) then e0.(title := req.title.value) else e0;
      var e2 := if req.description.Some? then e1.(description := req.description.value) else e1;
      var e3 := if req.startTime.Some? then e2.(startTime := req.startTime.value) else e2;
      var e4 := if req.endTime.Some? then e3.(endTime := req.endTime.value) else e3;
      Ok((store[i := e4], e4))
  }

  /** An update that supplies nothing leaves the store as it was. */
  lemma EmptyUpdateChangesNothing(store: seq<Election>, id: string)
    requires FindElection(store, id).Some?
    ensures UpdateElection(store, id, UpdateRequest(None, None, None, None)).value.0 == store
  {
  }

  // -------------------------------------------------------------- candidates

  /** The `candidates` field: an array, or any single value, which is wrapped. */
  datatype CandidateInput = Many(names: seq<string>) | One(name: string)

  /** The names to add: the list as given, or the single value as a one-element list. */
  function InputNames(input: CandidateInput): seq<string>
  {
    match input
    case Many(names) => names
    case One(name) => [name]
  }

  /** The election with `names` appended as candidates, ordered on from the current count. */
  function Extend(e: Election, names: seq<string>, newId: nat -> string): (r: Election)
    ensures r == e.(candidates := r.candidates)
    ensures |r.candidates| == |e.candidates| + |names|
    ensures r.candidates[..|e.candidates|] == e.candidates
    ensures forall k :: 0 <= k < |names| ==>
      r.candidates[|e.candidates| + k] == Candidate(newId(k), names[k], |e.candidates| + k)
  {
    e.(candidates := e.candidates + NumberCandidates(names, |e.candidates|, newId, 0))
  }

  /**
   * `POST /api/elections/:id/candidates`: refused once the election has
   * started (`now >= startTime`); new candidates continue the order from the
   * current number of candidates.
   */
  function AddCandidates(store: seq<Election>, id: string, input: CandidateInput, now: int, newId: nat -> string)
    : (r: Result<(seq<Election>, Election), ApiError>)
    ensures r == Err(ApiError(404, NOT_FOUND)) <==> FindElection(store, id).None?
    ensures FindElection(store, id).Some? ==>
      (r == Err(ApiError(400, ALREADY_STARTED)) <==> now >= store[FindElection(store, id).value].startTime)
    ensures FindElection(store, id).Some? && now < store[FindElection(store, id).value].startTime ==> r.Ok?
    ensures r.Ok? ==>
      var i := FindElection(store, id).value;
      && now < store[i].startTime
      && r.value.1 == Extend(store[i], InputNames(input), newId)
      && r.value.0 == store[i := r.value.1]
  {
    match FindElection(store, id)
    case None => Err(ApiError(404, NOT_FOUND))
    case Some(i) =>
      if now >= store[i].startTime then Err(ApiError(400, ALREADY_STARTED))
      else
        var e' := Extend(store[i], InputNames(input), newId);
        Ok((store[i := e'], e'))
  }

  /** Adding candidates to an election numbered 0..n-1 keeps it numbered 0..n+k-1. */
  lemma AddCandidatesKeepsOrder(store: seq<Election>, id: string, input: CandidateInput, now: int, newId: nat -> string)
    requires AddCandidates(store, id, input, now, newId).Ok?
    requires OrderedFromZero(store[FindElection(store, id).value].candidates)
    ensures OrderedFromZero(AddCandidates(store, id, input, now, newId).value.1.candidates)
  {
  }

  /** A single name is added as a one-element list. */
  lemma SingleNameIsWrapped(store: seq<Election>, id: string, name: string, now: int, newId: nat -> string)
    requires AddCandidates(store, id, One(name), now, newId).Ok?
    ensures var before := store[FindElection(store, id).value].candidates;
      var after := AddCandidates(store, id, One(name), now, newId).value.1.candidates;
      after == before + [Candidate(newId(0), name, |before|)]
  {
    var before := store[FindElection(store, id).value].candidates;
    var after := AddCandidates(store, id, One(name), now, newId).value.1.candidates;
    assert after == after[..|before|] + [after[|before|]];
  }

  // ----------------------------------------------------------------- results

  /** `elections.find(e => e.id === id)`, refused with 404 when there is none. */
  function Lookup(store: seq<Election>, id: string): (r: Result<Election, ApiError>)
    ensures r.Err? <==> FindElection(store, id).None?
    ensures r.Err? ==> r.error == ApiError(404, NOT_FOUND)
    ensures r.Ok? ==> r.value == store[FindElection(store, id).value] && r.value.id == id
  {
    match FindElection(store, id)
    case None => Err(ApiError(404, NOT_FOUND))
    case Some(i) => Ok(store[i])
  }

  /** The body of `GET /api/elections/:id`: the election with status and tally. */
  datatype ElectionDetail = ElectionDetail(election: Election, status: Status, voteCounts: seq<Entry>, totalVotes: nat)

  /**
   * `GET /api/elections/:id` over the ledger `blocks`: the election, its
   * status, the per-candidate tally and the sum of that tally.
   */
  function Detail(store: seq<Election>, id: string, blocks: seq<Block>, now: int): (r: Result<ElectionDetail, ApiError>)
    ensures r.Err? <==> FindElection(store, id).None?
    ensures r.Err? ==> r.error == ApiError(404, NOT_FOUND)
    ensures r.Ok? ==>
      var e := store[FindElection(store, id).value];
      && r.value.election == e
      && r.value.status == StatusAt(e, now)
      && (forall k :: Get(r.value.voteCounts, k) == CountVotes(blocks, id, k))
      && WellFormed(r.value.voteCounts)
      && (forall k :: k in Keys(r.value.voteCounts) <==> CountVotes(blocks, id, k) > 0)
      && r.value.totalVotes == ElectionVotes(blocks, id)
  {
    match Lookup(store, id)
    case Err(err) => Err(err)
    case Ok(e) =>
      var counts := GetElectionVotes(blocks, e.id);
      assert forall k :: k in Keys(counts) <==> CountVotes(blocks, id, k) > 0 by {
        forall k ensures k in Keys(counts) <==> CountVotes(blocks, id, k) > 0 {
          TallyKeys(blocks, id, k);
        }
      }
      Ok(ElectionDetail(e, StatusAt(e, now), counts, Total(counts)))
  }

  /** A candidate with its vote count (`{ ...c, votes }`). */
  datatype CandidateResult = CandidateResult(id: string, name: string, order: int, votes: nat)

  /** The body of `GET /api/elections/:id/results`. */
  datatype ResultsView = ResultsView(
    electionId: string,
    title: string,
    status: Status,
    results: seq<CandidateResult>,
    totalVotes: nat)

  /** The candidates' ids in stored order. */
  function CandidateIds(cs: seq<Candidate>): (ids: seq<string>)
    ensures |ids| == |cs| && forall i :: 0 <= i < |cs| ==> ids[i] == cs[i].id
  {
    seq(|cs|, i requires 0 <= i < |cs| => cs[i].id)
  }

  /** The votes shown across the result rows. */
  function ShownVotes(rs: seq<CandidateResult>): nat
  {
    if rs == [] then 0 else rs[0].votes + ShownVotes(rs[1..])
  }

  /** One row per candidate in stored order; a candidate missing from the tally reads as 0. */
  function Rows(cs: seq<Candidate>, voteCounts: seq<Entry>): (rs: seq<CandidateResult>)
    ensures |rs| == |cs|
    ensures forall i :: 0 <= i < |cs| ==>
      rs[i] == CandidateResult(cs[i].id, cs[i].name, cs[i].order, Get(voteCounts, cs[i].id))
  {
    seq(|cs|, i requires 0 <= i < |cs| =>
      CandidateResult(cs[i].id, cs[i].name, cs[i].order, Get(voteCounts, cs[i].id)))
  }

  /**
   * `GET /api/elections/:id/results` over the ledger `blocks`: each
   * candidate's votes in this election, and the number of votes cast in it.
   */
  function Results(store: seq<Election>, id: string, blocks: seq<Block>, now: int): (r: Result<ResultsView, ApiError>)
    ensures r.Err? <==> FindElection(store, id).None?
    ensures r.Err? ==> r.error == ApiError(404, NOT_FOUND)
    ensures r.Ok? ==>
      var e := store[FindElection(store, id).value];
      && r.value.electionId == id && r.value.title == e.title
      && r.value.status == StatusAt(e, now)
      && |r.value.results| == |e.candidates|
      && (forall i :: 0 <= i < |e.candidates| ==>
            var c := e.candidates[i];
            r.value.results[i] == CandidateResult(c.id, c.name, c.order, CountVotes(blocks, id, c.id)))
      && r.value.totalVotes == ElectionVotes(blocks, id)
  {
    match Lookup(store, id)
    case Err(err) => Err(err)
    case Ok(e) =>
      var counts := GetElectionVotes(blocks, e.id);
      Ok(ResultsView(e.id, e.title, StatusAt(e, now), Rows(e.candidates, counts), Total(counts)))
  }

  /** The rows' votes add up to the counts looked up under the candidates' ids. */
  lemma {:induction false} ShownVotesAreLookups(rs: seq<CandidateResult>, cs: seq<Candidate>, t: seq<Entry>)
    requires |rs| == |cs|
    requires forall i :: 0 <= i < |cs| ==> rs[i].votes == Get(t, cs[i].id)
    ensures ShownVotes(rs) == SumOf(t, CandidateIds(cs))
  {
    if rs != [] {
      ShownVotesAreLookups(rs[1..], cs[1..], t);
      assert CandidateIds(cs)[1..] == CandidateIds(cs[1..]);
    }
  }

  /**
   * With distinct candidate ids, the rows never show more votes than
   * `totalVotes`; any difference is votes recorded in this election for ids
   * that are not its candidates.
   */
  lemma ResultsWithinTotal(store: seq<Election>, id: string, blocks: seq<Block>, now: int)
    requires Results(store, id, blocks, now).Ok?
    requires Distinct(CandidateIds(store[FindElection(store, id).value].candidates))
    ensures ShownVotes(Results(store, id, blocks, now).value.results) <= Results(store, id, blocks, now).value.totalVotes
  {
    var e := store[FindElection(store, id).value];
    var counts := GetElectionVotes(blocks, id);
    var r := Results(store, id, blocks, now).value;
    assert r.results == Rows(e.candidates, counts);
    ShownVotesAreLookups(r.results, e.candidates, counts);
    SumOfDistinctAtMostTotal(counts, CandidateIds(e.candidates));
  }

  /** The detail page and the results page report the same total. */
  lemma DetailAgreesWithResults(store: seq<Election>, id: string, blocks: seq<Block>, now: int)
    requires FindElection(store, id).Some?
    ensures Detail(store, id, blocks, now).value.totalVotes == Results(store, id, blocks, now).value.totalVotes
    ensures Detail(store, id, blocks, now).value.status == Results(store, id, blocks, now).value.status
  {
  }

  /** A vote recorded under an id the election does not list counts in `totalVotes` but in no row. */
  lemma ForeignVoteOnlyInTotal(c: Crypto, now: int)
    ensures var e := Election("E1", "T", "", 0, 1, [Candidate("C1", "A", 0)], "admin", 0);
      var blocks := [NewBlock(c, 1, 0, [Vote("h", "X", "E1", 0)], "0")];
      var r := Results([e], "E1", blocks, now).value;
      ShownVotes(r.results) == 0 && r.totalVotes == 1
  {
  }
}
