/** The `operation_log` table: its rows, the queries over it and the effect of every statement on it. */
module OutboxTable {
  import opened Basics

  const OUTBOX_CLAIM_TTL_MS := 60_000
  const OUTBOX_CHAIN_BUDGET_MS := 20_000
  const CONFLICT_ATTEMPT_CAP: nat := 3
  const ANIME_UPDATE_OPERATION := "update"
  const SEASON_RATING_OPERATION := "season_rating"

  datatype Owner = Js | Native

  /** Identifies one claim exactly: the runtime holding it and when it took it. */
  datatype Claim = Claim(owner: Owner, claimedAt: int)

  datatype Status = Pending | Processing | Synced | DeadLetter | ConflictExhausted

  /** A stored payload as it parses: a JSON object, or the empty one for any other text. */
  type Payload = map<string, Json>

  datatype Row = Row(
    animeId: AnimeId,
    operation: string,
    payload: Payload,
    status: Status,
    createdAt: int,
    attempts: nat,
    claim: Option<Claim>,
    reason: Option<string>)

  type Table = map<nat, Row>

  predicate Queued(row: Row) { row.status == Pending || row.status == Processing }

  predicate GivenUp(row: Row) { row.status == DeadLetter || row.status == ConflictExhausted }

  function LiveClaimFloor(now: int): int { now - OUTBOX_CLAIM_TTL_MS }

  predicate ClaimedAfter(row: Row, floor: int) { row.claim.Some? && row.claim.value.claimedAt > floor }

  /** The row carries a claim that has not expired at `now`. */
  predicate Live(row: Row, now: int) { ClaimedAfter(row, LiveClaimFloor(now)) }

  /** The compare-and-set guard of every write a claim holder makes. */
  predicate Held(t: Table, id: nat, claim: Claim) {
    id in t && t[id].status == Processing && t[id].claim == Some(claim)
  }

  /** The queue order `created_at ASC, id ASC`. */
  predicate Before(t: Table, a: nat, b: nat)
    requires a in t && b in t
  {
    t[a].createdAt < t[b].createdAt || (t[a].createdAt == t[b].createdAt && a < b)
  }

  /** Rank 1 of its anime among the queued rows. */
  predicate Oldest(t: Table, id: nat) {
    && id in t && Queued(t[id])
    && forall other | other in t && Queued(t[other]) && t[other].animeId == t[id].animeId ::
         other == id || Before(t, id, other)
  }

  /** Some row of the anime carries a claim taken after `floor`. */
  predicate KeyClaimed(t: Table, animeId: AnimeId, floor: int) {
    exists id | id in t :: t[id].animeId == animeId && ClaimedAfter(t[id], floor)
  }

  function QueuedIds(t: Table): set<nat> { set id | id in t && Queued(t[id]) }

  /** The rows the deduplicated backlog query ranks first, keys claimed after `floor` skipped. */
  function ClaimableIds(t: Table, floor: int): set<nat> {
    set id | id in t && Oldest(t, id) && !KeyClaimed(t, t[id].animeId, floor)
  }

  lemma EarliestExists(t: Table, ids: set<nat>)
    requires ids != {} && ids <= t.Keys
    ensures exists first | first in ids :: forall id | id in ids :: id == first || Before(t, first, id)
  {
    var some :| some in ids;
    var rest := ids - {some};
    if rest == {} {
      assert ids == {some};
    } else {
      EarliestExists(t, rest);
      var first :| first in rest && forall id | id in rest :: id == first || Before(t, first, id);
      var winner := if Before(t, first, some) then first else some;
      assert forall id | id in ids :: id in rest || id == some;
      assert forall id | id in ids :: id == winner || Before(t, winner, id);
    }
  }

  /** The first of `ids` in queue order. */
  function Earliest(t: Table, ids: set<nat>): (first: nat)
    requires ids != {} && ids <= t.Keys
    ensures first in ids && forall id | id in ids :: id == first || Before(t, first, id)
  {
    EarliestExists(t, ids);
    var first :| first in ids && forall id | id in ids :: id == first || Before(t, first, id);
    first
  }

  /** `ids` in queue order. */
  function InQueueOrder(t: Table, ids: set<nat>): (ordered: seq<nat>)
    requires ids <= t.Keys
    ensures forall id :: id in ordered <==> id in ids
    ensures |ordered| == |ids|
    ensures forall i, j | 0 <= i < j < |ordered| :: Before(t, ordered[i], ordered[j])
    decreases |ids|
  {
    if ids == {} then []
    else
      var first := Earliest(t, ids);
      var rest := InQueueOrder(t, ids - {first});
      assert forall i | 0 <= i < |rest| :: rest[i] in rest;
      [first] + rest
  }

  /** `ORDER BY created_at, id LIMIT limit` over the claimable rows. */
  function Backlog(t: Table, floor: int, limit: nat): (ordered: seq<nat>)
    ensures forall id | id in ordered :: id in ClaimableIds(t, floor)
    ensures forall i, j | 0 <= i < j < |ordered| :: ordered[i] != ordered[j]
    ensures |ordered| == if |ClaimableIds(t, floor)| < limit then |ClaimableIds(t, floor)| else limit
  {
    var ordered := InQueueOrder(t, ClaimableIds(t, floor));
    if |ordered| <= limit then ordered else ordered[..limit]
  }

  /** The claim statement of a batch: queued rows whose claim is absent or expired. */
  function ClaimRows(t: Table, ids: set<nat>, claim: Claim, floor: int): Table {
    map id | id in t ::
      if id in ids && Queued(t[id]) && !ClaimedAfter(t[id], floor)
      then t[id].(status := Processing, claim := Some(claim))
      else t[id]
  }

  /** The candidates of the chain: the oldest queued row of each key, while pending and unclaimed. */
  function SuccessorIds(t: Table, animeIds: set<AnimeId>): set<nat> {
    set id | id in t && t[id].animeId in animeIds && Oldest(t, id) && t[id].status == Pending && t[id].claim.None?
  }

  function ClaimSuccessors(t: Table, animeIds: set<AnimeId>, claim: Claim): Table {
    var ids := SuccessorIds(t, animeIds);
    map id | id in t ::
      if id in ids && t[id].status == Pending && t[id].claim.None?
      then t[id].(status := Processing, claim := Some(claim))
      else t[id]
  }

  /** What one answer means for the row it answers. */
  datatype Fate =
    | Confirm
    | Return
    | GiveUp(why: Option<string>)
    | Conflict(advanced: bool)

  function ConflictAttempts(attempts: nat, advanced: bool): nat { if advanced then 0 else attempts + 1 }

  function ApplyFate(row: Row, fate: Fate): Row {
    match fate
    case Confirm => row.(status := Synced, claim := None)
    case Return => row.(status := Pending, claim := None)
    case GiveUp(why) => row.(status := DeadLetter, claim := None, reason := if why.Some? then why else row.reason)
    case Conflict(advanced) =>
      var attempts := ConflictAttempts(row.attempts, advanced);
      row.(status := if !advanced && attempts >= CONFLICT_ATTEMPT_CAP then ConflictExhausted else Pending,
           attempts := attempts,
           claim := None)
  }

  /** Every status write of a settlement at once: each held row takes its own fate, nothing else moves. */
  function Settle(t: Table, fates: map<nat, Fate>, claim: Claim): Table {
    map id | id in t :: if id in fates && Held(t, id, claim) then ApplyFate(t[id], fates[id]) else t[id]
  }

  function HeldIds(t: Table, ids: set<nat>, claim: Claim): set<nat> {
    set id | id in ids && Held(t, id, claim)
  }

  /** The rows a settlement confirms: those it holds whose fate is `Confirm`. */
  function ConfirmedIds(t: Table, fates: map<nat, Fate>, claim: Claim): set<nat> {
    set id | id in fates && Held(t, id, claim) && fates[id].Confirm?
  }

  function SeasonOf(payload: Payload): Option<Json> {
    if "seasonId" in payload then Some(payload["seasonId"]) else None
  }

  /** Confirming `id` carries its key past the given-up row `other`. */
  predicate Supersedes(t: Table, id: nat, other: nat)
    requires id in t && other in t
  {
    && t[other].animeId == t[id].animeId
    && other < id
    && if t[id].operation == SEASON_RATING_OPERATION
       then t[other].operation == SEASON_RATING_OPERATION && t[other].status == DeadLetter
            && StrictlyEqual(SeasonOf(t[other].payload), SeasonOf(t[id].payload))
       else t[other].operation == ANIME_UPDATE_OPERATION && GivenUp(t[other])
  }

  function SupersededIds(t: Table, confirmed: set<nat>): set<nat> {
    set other, id | other in t && id in confirmed && id in t && Supersedes(t, id, other) :: other
  }

  function AnimesOf(t: Table, ids: set<nat>): set<AnimeId> {
    set id | id in ids && id in t :: t[id].animeId
  }

  /**
   * One settlement transaction: the fates, the deletion of what the confirmed rows supersede and,
   * while the chain budget lasts, the claim of each confirmed key's next row.
   */
  function SettleRound(t: Table, fates: map<nat, Fate>, claim: Claim, now: int): Table {
    var confirmed := ConfirmedIds(t, fates, claim);
    var settled := Settle(t, fates, claim);
    var resolved := settled - SupersededIds(settled, confirmed);
    if now >= claim.claimedAt + OUTBOX_CHAIN_BUDGET_MS then resolved
    else ClaimSuccessors(resolved, AnimesOf(t, confirmed), claim)
  }

  /** What asking the bridge for an anime with no stored token came to. */
  datatype TokenOutcome = Unreachable | Unresolved(why: string) | Token(token: int)

  function FetchFirstRow(row: Row, held: bool, outcome: TokenOutcome): Row {
    match outcome
    case Token(_) => row
    case Unreachable => if held then row.(status := Pending, claim := None) else row
    case Unresolved(why) =>
      if held || (row.operation == ANIME_UPDATE_OPERATION && row.status == Pending && row.claim.None?)
      then row.(status := DeadLetter, claim := None, reason := Some(why))
      else row
  }

  /** The fetch-first writes on the queue: each row follows the outcome of its own anime, if any. */
  function FetchFirst(t: Table, ids: set<nat>, outcomes: map<AnimeId, TokenOutcome>, claim: Claim): Table {
    map id | id in t ::
      if t[id].animeId in outcomes
      then FetchFirstRow(t[id], id in ids && Held(t, id, claim), outcomes[t[id].animeId])
      else t[id]
  }

  /** Keep local: the key's given-up rows are queued again with a fresh conflict count. */
  function KeepLocal(t: Table, ids: set<nat>): Table {
    map id | id in t :: if id in ids then t[id].(status := Pending, reason := None, attempts := 0) else t[id]
  }

  /** The given-up rows an anime key's keep-local revives. */
  function GivenUpEdits(t: Table, animeId: AnimeId): set<nat> {
    set id | id in t && t[id].animeId == animeId && t[id].operation == ANIME_UPDATE_OPERATION && GivenUp(t[id])
  }

  function UnsyncedEdits(t: Table, animeId: AnimeId): set<nat> {
    set id | id in t && t[id].animeId == animeId && t[id].operation == ANIME_UPDATE_OPERATION && t[id].status != Synced
  }

  /** The rating rows of one key: its anime, the stored season values that read as its season, some statuses. */
  function RatingsOf(t: Table, animeId: AnimeId, seasons: set<Option<Json>>, statuses: set<Status>): set<nat> {
    set id | id in t && t[id].animeId == animeId && t[id].operation == SEASON_RATING_OPERATION
             && t[id].status in statuses && SeasonOf(t[id].payload) in seasons
  }
}
