/**
 * The local database as a state machine: every transaction either runtime makes is one step, and a run is any
 * finite sequence of them. The native runtime takes the same steps under its own claims.
 */
module Protocol {
  import opened Basics
  import opened OutboxTable
  import opened AnimeTable
  import opened MergeBoundary
  import opened SnapshotHeal

  /** The stored bridge config: which pairing it is and how far its changelog was read. */
  datatype Pairing = Pairing(id: nat, cursor: int)

  datatype Db = Db(
    log: Table,
    nextId: nat,
    animes: Animes,
    staged: seq<RemoteChange>,
    pairing: Option<Pairing>,
    now: int)

  /** The columns a local gesture writes. */
  const LOCAL_EDIT_COLUMNS: set<Column> := {NroCapVisto, FechaUltCapVisto, Estado, FechaEstreno, PrimeraVez}

  /** A token an answer re-bases a conflicting row on, written only while the row is held. */
  datatype Rebase = Rebase(id: nat, animeId: AnimeId, token: int)

  datatype Step =
    | LocalEdit(animeId: AnimeId, columns: Columns, payload: Payload, createdAt: int)
    | QueueRating(animeId: AnimeId, payload: Payload, createdAt: int)
    | ClaimBatch(owner: Owner, limit: nat)
    | FetchMissing(claim: Claim, ids: set<nat>, outcomes: map<AnimeId, TokenOutcome>)
    | SettleReconcile(
        claim: Claim,
        fates: map<nat, Fate>,
        tokens: map<AnimeId, int>,
        rebases: seq<Rebase>,
        changes: seq<RemoteChange>,
        sent: int,
        answered: int,
        pairingId: nat)
    | SettleRows(claim: Claim, fates: map<nat, Fate>)
    | Drain
    | StageThenAdvance(changes: seq<RemoteChange>, sent: int, answered: int, pairingId: nat)
    | HealSnapshot(remote: seq<Listed>)
    | KeepLocalEdits(animeId: AnimeId)
    | KeepBridgeEdits(animeId: AnimeId, onBridge: Option<Listed>)
    | KeepLocalRating(animeId: AnimeId, seasons: set<Option<Json>>)
    | KeepBridgeRating(animeId: AnimeId, seasons: set<Option<Json>>)
    | Unpair

  /** A step and the clock reading of its transaction. */
  datatype Timed = Timed(at: int, step: Step)

  /** The animes with an edit the bridge has not confirmed. */
  function Unacked(t: Table): set<AnimeId> {
    set id | id in t && t[id].operation == ANIME_UPDATE_OPERATION && Queued(t[id]) :: t[id].animeId
  }

  function FreshRow(animeId: AnimeId, operation: string, payload: Payload, createdAt: int): Row {
    Row(animeId, operation, payload, Pending, createdAt, 0, None, None)
  }

  /** The forward-only cursor write, guarded by the cursor the request was sent on. */
  function AdvanceCursor(pairing: Option<Pairing>, pairingId: nat, sent: int, answered: int): Option<Pairing> {
    if pairing.Some? && pairing.value.id == pairingId && answered > sent
    then Some(Pairing(pairingId, Max(pairing.value.cursor, answered)))
    else pairing
  }

  function WriteTokens(animes: Animes, tokens: map<AnimeId, int>): Animes {
    map id | id in animes :: if id in tokens then animes[id].(token := Some(tokens[id])) else animes[id]
  }

  function WriteRebases(animes: Animes, rebases: seq<Rebase>, t: Table, claim: Claim): Animes {
    if rebases == [] then animes
    else
      var last := rebases[|rebases| - 1];
      var before := WriteRebases(animes, rebases[..|rebases| - 1], t, claim);
      if Held(t, last.id, claim) then ApplyToken(before, last.animeId, Some(last.token)) else before
  }

  /** The animes whose held rows an answer speaks for. */
  function HeldAnimes(t: Table, fates: map<nat, Fate>, claim: Claim): set<AnimeId> {
    set id | id in fates && Held(t, id, claim) :: t[id].animeId
  }

  predicate ClaimHoldsAnime(t: Table, animeId: AnimeId, claim: Claim) {
    exists id | id in t :: t[id].animeId == animeId && Held(t, id, claim)
  }

  /** A fetched token is stored only where none is, and only while the claim holds a row of its anime. */
  function WriteFetched(animes: Animes, outcomes: map<AnimeId, TokenOutcome>, t: Table, claim: Claim): Animes {
    map id | id in animes ::
      if id in outcomes && outcomes[id].Token? && animes[id].token.None? && ClaimHoldsAnime(t, id, claim)
      then animes[id].(token := Some(outcomes[id].token))
      else animes[id]
  }

  function ForgetBridge(animes: Animes): Animes {
    map id | id in animes :: animes[id].(columns := animes[id].columns[Season := NULL_VALUE], token := None)
  }

  /** The rows a transaction at `at` leaves in the outbox. */
  function NextLog(db: Db, at: int, step: Step): Table {
    match step
    case LocalEdit(animeId, _, payload, createdAt) =>
      if animeId in db.animes
      then db.log[db.nextId := FreshRow(animeId, ANIME_UPDATE_OPERATION, payload, createdAt)]
      else db.log
    case QueueRating(animeId, payload, createdAt) =>
      db.log[db.nextId := FreshRow(animeId, SEASON_RATING_OPERATION, payload, createdAt)]
    case ClaimBatch(owner, limit) =>
      var ids := set id | id in Backlog(db.log, LiveClaimFloor(at), limit);
      ClaimRows(db.log, ids, Claim(owner, at), LiveClaimFloor(at))
    case FetchMissing(claim, ids, outcomes) => FetchFirst(db.log, ids, outcomes, claim)
    case SettleReconcile(claim, fates, _, _, _, _, _, _) => SettleRound(db.log, fates, claim, at)
    case SettleRows(claim, fates) => SettleRound(db.log, fates, claim, at)
    case KeepLocalEdits(animeId) =>
      if KeyClaimed(db.log, animeId, LiveClaimFloor(at)) then db.log
      else KeepLocal(db.log, GivenUpEdits(db.log, animeId))
    case KeepBridgeEdits(animeId, _) =>
      if KeyClaimed(db.log, animeId, LiveClaimFloor(at)) then db.log
      else db.log - UnsyncedEdits(db.log, animeId)
    case KeepLocalRating(animeId, seasons) =>
      if KeyClaimed(db.log, animeId, LiveClaimFloor(at)) then db.log
      else KeepLocal(db.log, RatingsOf(db.log, animeId, seasons, {DeadLetter}))
    case KeepBridgeRating(animeId, seasons) =>
      if KeyClaimed(db.log, animeId, LiveClaimFloor(at)) then db.log
      else db.log - RatingsOf(db.log, animeId, seasons, {Pending, Processing, DeadLetter})
    case Unpair => map[]
    case Drain => db.log
    case StageThenAdvance(_, _, _, _) => db.log
    case HealSnapshot(_) => db.log
  }

  /** The merge pass of a step, reading the un-acked edits before any status is written. */
  function MergedBy(db: Db, step: Step): (Animes, seq<RemoteChange>) {
    Pass(db.animes, db.staged, if step.SettleReconcile? then step.changes else [], Unacked(db.log))
  }

  /** The token writes of an answer, over the rows its merge pass left. */
  function Tokened(t: Table, step: Step, merged: Animes): Animes
    requires step.SettleReconcile?
  {
    var held := HeldAnimes(t, step.fates, step.claim);
    WriteRebases(WriteTokens(merged, map id | id in step.tokens && id in held :: step.tokens[id]),
                 step.rebases, t, step.claim)
  }

  function EditRow(animes: Animes, animeId: AnimeId, columns: Columns): Animes {
    if animeId in animes then animes[animeId := animes[animeId].(columns := animes[animeId].columns + columns)] else animes
  }

  /** The heal of one key from what the bridge holds: nothing, or the anime it lists. */
  function TakeBridgeRow(animes: Animes, animeId: AnimeId, onBridge: Option<Listed>): Animes {
    if onBridge.None? then animes - {animeId} else HealAnime(animes, onBridge.value, LocalRow(animes, animeId)).0
  }

  function NextAnimes(db: Db, at: int, step: Step): Animes {
    match step
    case LocalEdit(animeId, columns, _, _) => EditRow(db.animes, animeId, columns)
    case FetchMissing(claim, _, outcomes) => WriteFetched(db.animes, outcomes, db.log, claim)
    case SettleReconcile(_, _, _, _, _, _, _, _) => Tokened(db.log, step, MergedBy(db, step).0)
    case Drain => MergedBy(db, step).0
    case HealSnapshot(remote) => HealAll(db.animes, remote, Unacked(db.log)).0
    case KeepLocalEdits(animeId) =>
      if KeyClaimed(db.log, animeId, LiveClaimFloor(at)) then db.animes else ApplyToken(db.animes, animeId, None)
    case KeepBridgeEdits(animeId, onBridge) =>
      if KeyClaimed(db.log, animeId, LiveClaimFloor(at)) then db.animes else TakeBridgeRow(db.animes, animeId, onBridge)
    case Unpair => ForgetBridge(db.animes)
    case _ => db.animes
  }

  function NextStaged(db: Db, step: Step): seq<RemoteChange> {
    match step
    case SettleReconcile(_, _, _, _, _, _, _, _) => MergedBy(db, step).1
    case Drain => MergedBy(db, step).1
    case StageThenAdvance(changes, _, _, _) => db.staged + changes
    case Unpair => []
    case _ => db.staged
  }

  function NextPairing(db: Db, step: Step): Option<Pairing> {
    match step
    case SettleReconcile(_, _, _, _, _, sent, answered, pairingId) => AdvanceCursor(db.pairing, pairingId, sent, answered)
    case StageThenAdvance(_, sent, answered, pairingId) => AdvanceCursor(db.pairing, pairingId, sent, answered)
    case Unpair => None
    case _ => db.pairing
  }

  /** The step queues a new row. */
  predicate Enqueues(db: Db, step: Step) {
    step.QueueRating? || (step.LocalEdit? && step.animeId in db.animes)
  }

  /** One transaction. */
  function Next(db: Db, timed: Timed): Db {
    Db(NextLog(db, timed.at, timed.step),
       if Enqueues(db, timed.step) then db.nextId + 1 else db.nextId,
       NextAnimes(db, timed.at, timed.step),
       NextStaged(db, timed.step),
       NextPairing(db, timed.step),
       timed.at)
  }

  /** What a runtime guarantees of its own step: clocks do not run back, and an answer is read from the stored cursor on. */
  predicate ValidStep(db: Db, timed: Timed) {
    && db.now <= timed.at
    && match timed.step
       case LocalEdit(_, columns, _, _) => columns.Keys <= LOCAL_EDIT_COLUMNS
       case SettleReconcile(_, _, _, _, _, sent, _, pairingId) => ReadFromCursor(db.pairing, pairingId, sent)
       case StageThenAdvance(_, sent, _, pairingId) => ReadFromCursor(db.pairing, pairingId, sent)
       case _ => true
  }

  predicate ReadFromCursor(pairing: Option<Pairing>, pairingId: nat, sent: int) {
    pairing.Some? && pairing.value.id == pairingId ==> sent <= pairing.value.cursor
  }

  /** Unpairing empties the queue, the staging table and the pairing, and no anime keeps a token or a season. */
  lemma UnpairingForgets(db: Db, at: int)
    ensures var after := Next(db, Timed(at, Unpair));
      && after.log == map[] && after.staged == [] && after.pairing == None && after.nextId == db.nextId
      && after.animes.Keys == db.animes.Keys
      && forall id | id in db.animes ::
           && after.animes[id].token == None && after.animes[id].guard == db.animes[id].guard
           && forall column: Column ::
                Get(after.animes[id].columns, column)
                == if column == Season then NULL_VALUE else Get(db.animes[id].columns, column)
  {
  }

  /** The state after a run. */
  function Run(db: Db, steps: seq<Timed>): Db {
    if steps == [] then db else Next(Run(db, steps[..|steps| - 1]), steps[|steps| - 1])
  }

  predicate ValidRun(db: Db, steps: seq<Timed>) {
    forall k | 0 <= k < |steps| :: ValidStep(Run(db, steps[..k]), steps[k])
  }

  lemma RunExtends(db: Db, steps: seq<Timed>, step: Timed)
    ensures Run(db, steps + [step]) == Next(Run(db, steps), step)
    ensures ValidRun(db, steps) && ValidStep(Run(db, steps), step) ==> ValidRun(db, steps + [step])
  {
    assert (steps + [step])[..|steps|] == steps;
    if ValidRun(db, steps) && ValidStep(Run(db, steps), step) {
      forall k | 0 <= k < |steps| + 1 ensures ValidStep(Run(db, (steps + [step])[..k]), (steps + [step])[k]) {
        assert (steps + [step])[..k] == if k < |steps| then steps[..k] else steps;
      }
    }
  }

  lemma ValidPrefix(db: Db, steps: seq<Timed>)
    requires steps != [] && ValidRun(db, steps)
    ensures ValidRun(db, steps[..|steps| - 1])
    ensures ValidStep(Run(db, steps[..|steps| - 1]), steps[|steps| - 1])
  {
    var before := steps[..|steps| - 1];
    forall k | 0 <= k < |before| ensures ValidStep(Run(db, before[..k]), before[k]) {
      assert before[..k] == steps[..k];
    }
  }
}
