/** What the statements of a transaction do, as facts about the rows: the proofs behind the store's methods. */
module StoreFacts {
  import opened Basics
  import opened OutboxTable
  import opened AnimeTable
  import opened MergeBoundary
  import opened MergeOrder
  import opened SnapshotHeal
  import opened Protocol
  import opened OutboxSafety
  import opened OutboxHistory
  import opened ReconcileAnswer
  import opened CycleRelations

  function HeldRows(t: Table, candidates: seq<nat>, claim: Claim): seq<Operation> {
    if candidates == [] then []
    else
      var last := candidates[|candidates| - 1];
      var before := HeldRows(t, candidates[..|candidates| - 1], claim);
      if Held(t, last, claim) then before + [Operation(last, t[last])] else before
  }

  lemma {:induction false} AllHeldRows(t: Table, candidates: seq<nat>, claim: Claim)
    requires forall i | 0 <= i < |candidates| :: Held(t, candidates[i], claim)
    ensures |HeldRows(t, candidates, claim)| == |candidates|
    ensures forall i | 0 <= i < |candidates| ::
      candidates[i] in t && HeldRows(t, candidates, claim)[i] == Operation(candidates[i], t[candidates[i]])
  {
    if candidates != [] {
      AllHeldRows(t, candidates[..|candidates| - 1], claim);
    }
  }

  /** The oldest rows of their animes are of different animes. */
  lemma OldestAreOnePerAnime(t: Table, ids: seq<nat>, rows: seq<Operation>)
    requires forall i | 0 <= i < |ids| :: Oldest(t, ids[i])
    requires forall i, j | 0 <= i < j < |ids| :: ids[i] != ids[j]
    requires |rows| == |ids|
    requires forall i | 0 <= i < |ids| :: rows[i].id == ids[i] && ids[i] in t && SameIntent(t[ids[i]], rows[i].row)
    ensures OnePerAnime(rows)
  {
    forall i, j | 0 <= i < j < |rows|
      ensures rows[i].id != rows[j].id && rows[i].row.animeId != rows[j].row.animeId
    {
      assert Oldest(t, ids[i]) && Oldest(t, ids[j]);
    }
  }

  lemma BatchHandsItsRows(t: Table, t': Table, ids: seq<nat>, claim: Claim, rows: seq<Operation>)
    requires t'.Keys == t.Keys && forall id | id in t && id !in ids :: t'[id] == t[id]
    requires |rows| == |ids| && forall i | 0 <= i < |ids| :: rows[i].id == ids[i]
    ensures Handed(t, t', claim, {}, IdsOf(rows))
  {
    forall id | Held(t', id, claim) && id in ids ensures id in IdsOf(rows) {
      var i :| 0 <= i < |ids| && ids[i] == id;
      assert rows[i].id == id;
    }
  }

  /** The claim statement of a batch, over what its query ranks first. */
  function BatchClaim(t: Table, limit: nat, claim: Claim): Table {
    var floor := LiveClaimFloor(claim.claimedAt);
    ClaimRows(t, (set id | id in Backlog(t, floor, limit)), claim, floor)
  }

  /** The statement wins every row its query ranked first, each the oldest of an anime of its own. */
  lemma BatchIsWon(t: Table, limit: nat, claim: Claim)
    ensures var backlog := Backlog(t, LiveClaimFloor(claim.claimedAt), limit);
      var t' := BatchClaim(t, limit, claim);
      var rows := HeldRows(t', backlog, claim);
      && |rows| == |backlog|
      && (forall i | 0 <= i < |rows| ::
            rows[i].id == backlog[i] && Held(t', rows[i].id, claim) && rows[i].row == t'[rows[i].id])
      && OnePerAnime(rows)
      && Handed(t, t', claim, {}, IdsOf(rows))
      && QueuedIds(t') == QueuedIds(t)
  {
    var floor := LiveClaimFloor(claim.claimedAt);
    var backlog := Backlog(t, floor, limit);
    var t' := BatchClaim(t, limit, claim);
    forall i | 0 <= i < |backlog|
      ensures Oldest(t, backlog[i]) && Held(t', backlog[i], claim) && SameIntent(t[backlog[i]], t'[backlog[i]])
    {
      assert backlog[i] in ClaimableIds(t, floor);
    }
    var rows := HeldRows(t', backlog, claim);
    AllHeldRows(t', backlog, claim);
    OldestAreOnePerAnime(t, backlog, rows);
    BatchHandsItsRows(t, t', backlog, claim, rows);
    ClaimKeepsQueue(t, (set id | id in backlog), claim, floor);
  }

  /** The row can be claimed at `at`: the first queued one of an anime nobody holds. */
  ghost predicate CanTake(t: Table, id: nat, at: int) {
    && id in t && (t[id].status == Pending || t[id].status == Processing)
    && (forall other | other in t && other != id && t[other].animeId == t[id].animeId
                       && (t[other].status == Pending || t[other].status == Processing) ::
          t[id].createdAt < t[other].createdAt || (t[id].createdAt == t[other].createdAt && id < other))
    && forall other | other in t && t[other].animeId == t[id].animeId && t[other].claim.Some? ::
         t[other].claim.value.claimedAt <= at - 60_000
  }

  predicate IsEarlier(t: Table, id: nat, other: nat)
    requires id in t && other in t
  {
    t[id].createdAt < t[other].createdAt || (t[id].createdAt == t[other].createdAt && id < other)
  }

  /** A batch takes the first rows that can be taken, in queue order, and writes no other. */
  ghost predicate Takes(t: Table, after: Table, batch: seq<Operation>, claim: Claim, limit: nat) {
    && |batch| <= limit && after.Keys == t.Keys
    && (forall i | 0 <= i < |batch| :: CanTake(t, batch[i].id, claim.claimedAt))
    && (forall i, j | 0 <= i < j < |batch| :: IsEarlier(t, batch[i].id, batch[j].id))
    && (forall id | CanTake(t, id, claim.claimedAt) && id !in IdsOf(batch) ::
          |batch| == limit && forall i | 0 <= i < |batch| :: IsEarlier(t, batch[i].id, id))
    && (forall id | id in t ::
          after[id] == if id in IdsOf(batch) then t[id].(status := Processing, claim := Some(claim)) else t[id])
    && forall i | 0 <= i < |batch| :: batch[i].row == after[batch[i].id]
  }

  lemma CanTakeMeans(t: Table, id: nat, at: int)
    ensures CanTake(t, id, at) <==> id in ClaimableIds(t, LiveClaimFloor(at))
  {
  }

  lemma PrefixIsFirst(t: Table, all: seq<nat>, limit: nat, id: nat)
    requires forall i | 0 <= i < |all| :: all[i] in t
    requires forall i, j | 0 <= i < j < |all| :: IsEarlier(t, all[i], all[j])
    requires id in all
    ensures var ids := if |all| <= limit then all else all[..limit];
      id !in ids ==> |ids| == limit && forall i | 0 <= i < |ids| :: IsEarlier(t, ids[i], id)
  {
    hide IsEarlier;
    var k :| 0 <= k < |all| && all[k] == id;
    var ids := if |all| <= limit then all else all[..limit];
    assert forall i | 0 <= i < |ids| :: ids[i] == all[i] && ids[i] in ids;
  }

  lemma BacklogIsFirst(t: Table, at: int, limit: nat)
    ensures var ids := Backlog(t, LiveClaimFloor(at), limit);
      && (forall i | 0 <= i < |ids| :: CanTake(t, ids[i], at))
      && (forall i, j | 0 <= i < j < |ids| :: IsEarlier(t, ids[i], ids[j]))
      && forall id | CanTake(t, id, at) && id !in ids :: |ids| == limit && forall i | 0 <= i < |ids| :: IsEarlier(t, ids[i], id)
  {
    var floor := LiveClaimFloor(at);
    var all, ids := InQueueOrder(t, ClaimableIds(t, floor)), Backlog(t, floor, limit);
    assert ids == if |all| <= limit then all else all[..limit];
    assert forall i, j | 0 <= i < j < |all| :: IsEarlier(t, all[i], all[j]);
    assert forall i | 0 <= i < |all| :: all[i] in ClaimableIds(t, floor);
    hide InQueueOrder, Backlog, IsEarlier;
    forall id ensures CanTake(t, id, at) <==> id in all {
      CanTakeMeans(t, id, at);
    }
    hide CanTake, ClaimableIds;
    forall id | CanTake(t, id, at) && id !in ids
      ensures |ids| == limit && forall i | 0 <= i < |ids| :: IsEarlier(t, ids[i], id)
    {
      PrefixIsFirst(t, all, limit, id);
    }
  }

  lemma BatchTakes(t: Table, limit: nat, claim: Claim, rows: seq<Operation>)
    requires var t' := BatchClaim(t, limit, claim);
      rows == HeldRows(t', Backlog(t, LiveClaimFloor(claim.claimedAt), limit), claim)
    ensures Takes(t, BatchClaim(t, limit, claim), rows, claim, limit)
  {
    var ids := Backlog(t, LiveClaimFloor(claim.claimedAt), limit);
    hide BatchClaim, Backlog, CanTake, HeldRows, Handed, OnePerAnime, Held, IdsOf, QueuedIds, IsEarlier;
    BatchIsWon(t, limit, claim);
    BacklogIsFirst(t, claim.claimedAt, limit);
    BatchWrites(t, limit, claim);
    IdsAreTheirs(rows, ids);
  }

  lemma BatchWrites(t: Table, limit: nat, claim: Claim)
    ensures var ids, after := Backlog(t, LiveClaimFloor(claim.claimedAt), limit), BatchClaim(t, limit, claim);
      && after.Keys == t.Keys
      && forall id | id in t :: after[id] == if id in ids then t[id].(status := Processing, claim := Some(claim)) else t[id]
  {
    var ids := Backlog(t, LiveClaimFloor(claim.claimedAt), limit);
    forall id | id in ids && id in t ensures Queued(t[id]) && !ClaimedAfter(t[id], LiveClaimFloor(claim.claimedAt)) {
      assert id in ClaimableIds(t, LiveClaimFloor(claim.claimedAt));
    }
    hide Backlog, ClaimableIds;
  }

  lemma BatchStep(before: Db, limit: nat, at: int)
    ensures var timed := Timed(at, ClaimBatch(Js, limit));
      && Next(before, timed) == before.(log := BatchClaim(before.log, limit, Claim(Js, at)), now := at)
      && (ValidStep(before, timed) <==> before.now <= at)
      && ConfirmedBy(before, timed.step) == {}
  {
  }

  lemma HeldRowsAreCarried(rows: seq<Operation>, db: Db, claim: Claim)
    requires WellFormed(db) && OnePerAnime(rows)
    requires forall i | 0 <= i < |rows| :: rows[i].id in db.log && rows[i].row == db.log[rows[i].id]
    ensures Carried(rows, db, claim)
  {
  }

  // ----- Staging -----

  /** The staging table without the rows at `positions`. */
  function DropAt(staged: seq<RemoteChange>, positions: set<nat>): seq<RemoteChange> {
    if staged == [] then []
    else
      var before := DropAt(staged[..|staged| - 1], positions);
      if |staged| - 1 in positions then before else before + [staged[|staged| - 1]]
  }

  /** Deleting exactly the rows a pass does not keep leaves the ones it keeps. */
  lemma {:induction false} DropAtKeeps(staged: seq<RemoteChange>, positions: set<nat>, changes: seq<RemoteChange>,
                                       context: MergeContext)
    requires forall k | 0 <= k < |staged| :: k in positions <==> !KeptDeferred(staged[k], changes, context)
    ensures DropAt(staged, positions) == KeptStaged(staged, changes, context)
  {
    if staged != [] {
      DropAtKeeps(staged[..|staged| - 1], positions, changes, context);
    }
  }

  lemma StagedEntryIsInPass(staged: seq<RemoteChange>, incoming: seq<RemoteChange>, entry: Entry)
    requires entry.staging.Some?
    ensures entry in PassEntries(staged, incoming)
      <==> entry.staging.value < |staged| && entry.change == staged[entry.staging.value]
  {
    ByTimestampMembers(StagedEntries(staged) + IncomingEntries(incoming), entry);
    if entry.staging.value < |staged| && entry.change == staged[entry.staging.value] {
      assert (StagedEntries(staged) + IncomingEntries(incoming))[entry.staging.value] == entry;
    }
  }

  /** The pass does not keep the staged row at `k`. */
  ghost predicate Consumes(entries: seq<Entry>, k: nat, changes: seq<RemoteChange>, context: MergeContext) {
    exists j | 0 <= j < |entries| :: entries[j].staging == Some(k) && !KeptDeferred(entries[j].change, changes, context)
  }

  lemma ConsumesOneMore(entries: seq<Entry>, i: nat, k: nat, changes: seq<RemoteChange>, context: MergeContext)
    requires i < |entries|
    ensures Consumes(entries[..i + 1], k, changes, context)
      <==> Consumes(entries[..i], k, changes, context)
           || (entries[i].staging == Some(k) && !KeptDeferred(entries[i].change, changes, context))
  {
    var before, after := entries[..i], entries[..i + 1];
    assert after == before + [entries[i]];
    if Consumes(before, k, changes, context) {
      var j :| 0 <= j < i && before[j].staging == Some(k) && !KeptDeferred(before[j].change, changes, context);
      assert after[j] == before[j];
    }
    assert after[i] == entries[i];
  }

  lemma ConsumedAreTheOthers(staged: seq<RemoteChange>, incoming: seq<RemoteChange>, consumed: set<nat>,
                             changes: seq<RemoteChange>, context: MergeContext)
    requires forall k :: k in consumed <==> Consumes(PassEntries(staged, incoming), k, changes, context)
    ensures DropAt(staged, consumed) == KeptStaged(staged, changes, context)
  {
    var entries := PassEntries(staged, incoming);
    forall k | 0 <= k < |staged| ensures k in consumed <==> !KeptDeferred(staged[k], changes, context) {
      StagedEntryIsInPass(staged, incoming, Entry(Some(k), staged[k]));
      if k in consumed {
        var j :| 0 <= j < |entries| && entries[j].staging == Some(k) && !KeptDeferred(entries[j].change, changes, context);
        StagedEntryIsInPass(staged, incoming, entries[j]);
      }
    }
    DropAtKeeps(staged, consumed, changes, context);
  }

  // ----- Status writes -----

  /** `UPDATE ... WHERE` the claim still holds the row. */
  function UpdateHeld(t: Table, ids: set<nat>, claim: Claim, fate: Fate): Table {
    map id | id in t :: if id in ids && Held(t, id, claim) then ApplyFate(t[id], fate) else t[id]
  }

  function ConflictRow(row: Row, outcome: ConflictOutcome): Row {
    row.(status := if outcome.exhausted then Status.ConflictExhausted else Pending, attempts := outcome.attempts, claim := None)
  }

  function WriteConflict(t: Table, outcome: ConflictOutcome, claim: Claim): Table {
    var id := outcome.operation.id;
    if Held(t, id, claim) then t[id := ConflictRow(t[id], outcome)] else t
  }

  /** The rows of `written` already carry their fates, the others are untouched. */
  ghost predicate Partly(t: Table, t': Table, fates: map<nat, Fate>, claim: Claim, written: set<nat>) {
    && t'.Keys == t.Keys && written <= fates.Keys
    && forall id | id in t ::
         t'[id] == if id in written && Held(t, id, claim) then ApplyFate(t[id], fates[id]) else t[id]
  }

  lemma StatusWrite(t: Table, t': Table, fates: map<nat, Fate>, claim: Claim, written: set<nat>, ids: set<nat>, fate: Fate)
    requires Partly(t, t', fates, claim, written)
    requires forall id | id in ids :: id in fates && fates[id] == fate
    ensures Partly(t, UpdateHeld(t', ids, claim, fate), fates, claim, written + ids)
  {
  }

  lemma ConflictWrite(t: Table, t': Table, fates: map<nat, Fate>, claim: Claim, written: set<nat>, outcome: ConflictOutcome)
    requires Partly(t, t', fates, claim, written)
    requires var id := outcome.operation.id;
      id in fates && (Held(t, id, claim) ==> ApplyFate(t[id], fates[id]) == ConflictRow(t[id], outcome))
    ensures Partly(t, WriteConflict(t', outcome, claim), fates, claim, written + {outcome.operation.id})
  {
  }

  lemma AllWritten(t: Table, t': Table, fates: map<nat, Fate>, claim: Claim, written: set<nat>)
    requires Partly(t, t', fates, claim, written)
    requires forall id | id in fates && Held(t, id, claim) :: id in written
    ensures t' == Settle(t, fates, claim)
  {
  }

  function ToSet(ids: seq<nat>): set<nat> { set id | id in ids }

  function OutcomeIds(outcomes: seq<ConflictOutcome>): set<nat> { set i | 0 <= i < |outcomes| :: outcomes[i].operation.id }

  ghost predicate ConflictsAgree(t: Table, fates: map<nat, Fate>, claim: Claim, conflicts: seq<ConflictOutcome>) {
    forall i | 0 <= i < |conflicts| ::
      var id := conflicts[i].operation.id;
      id in fates && Held(t, id, claim) && ApplyFate(t[id], fates[id]) == ConflictRow(t[id], conflicts[i])
  }

  /** The buckets of an answer cover the held rows it speaks for, each with the fate its bucket writes. */
  ghost predicate Buckets(t: Table, fates: map<nat, Fate>, claim: Claim, conflicts: seq<ConflictOutcome>,
                          deadLetters: seq<nat>, confirmed: seq<nat>, remaining: seq<nat>)
  {
    && ConflictsAgree(t, fates, claim, conflicts)
    && (forall id | id in deadLetters :: id in fates && fates[id] == GiveUp(None))
    && (forall id | id in confirmed :: id in fates && fates[id] == Confirm)
    && (forall id | id in remaining :: id in fates && fates[id] == Return)
    && (forall id | id in fates && Held(t, id, claim) ::
          id in OutcomeIds(conflicts) || id in deadLetters || id in confirmed || id in remaining)
  }

  lemma OutcomeIdsNext(outcomes: seq<ConflictOutcome>, i: nat)
    requires i < |outcomes|
    ensures OutcomeIds(outcomes[..i + 1]) == OutcomeIds(outcomes[..i]) + {outcomes[i].operation.id}
  {
    var before, after := outcomes[..i], outcomes[..i + 1];
    assert after == before + [outcomes[i]];
    assert after[i] == outcomes[i];
    assert forall k | 0 <= k < i :: after[k] == before[k];
  }

  lemma RebasesNext(animes: Animes, outcomes: seq<ConflictOutcome>, i: nat, t: Table, claim: Claim)
    requires i < |outcomes| && Held(t, outcomes[i].operation.id, claim)
    ensures WriteRebases(animes, RebasesOf(outcomes[..i + 1]), t, claim)
      == ApplyToken(WriteRebases(animes, RebasesOf(outcomes[..i]), t, claim),
                    outcomes[i].operation.row.animeId, Some(outcomes[i].token))
  {
    var all := RebasesOf(outcomes[..i + 1]);
    assert all[..|all| - 1] == RebasesOf(outcomes[..i]);
  }

  // ----- Superseded rows -----

  /** The given-up edits the confirmation of one edit carries its key past. */
  function SupersededBy(t: Table, operation: Operation): set<nat> {
    set other | other in t && t[other].animeId == operation.row.animeId && other < operation.id
                && t[other].operation == ANIME_UPDATE_OPERATION && GivenUp(t[other])
  }

  /** The given-up ratings of the same season a delivered rating carries its key past. */
  function RatingsSupersededBy(t: Table, operation: Operation): set<nat> {
    set other | other in t && t[other].animeId == operation.row.animeId && other < operation.id
                && t[other].operation == SEASON_RATING_OPERATION && t[other].status == DeadLetter
                && StrictlyEqual(SeasonOf(t[other].payload), SeasonOf(operation.row.payload))
  }

  ghost predicate StoredEdit(t: Table, operation: Operation) {
    && operation.id in t && t[operation.id].animeId == operation.row.animeId
    && t[operation.id].operation != SEASON_RATING_OPERATION
  }

  lemma SupersededUnion(t: Table, ids: set<nat>, operation: Operation)
    requires StoredEdit(t, operation)
    ensures SupersededIds(t, ids + {operation.id}) == SupersededIds(t, ids) + SupersededBy(t, operation)
  {
    forall other | other in t
      ensures other in SupersededIds(t, ids + {operation.id})
        <==> other in SupersededIds(t, ids) || other in SupersededBy(t, operation)
    {
      assert other in SupersededBy(t, operation) <==> Supersedes(t, operation.id, other);
    }
  }

  lemma IdsNext(operations: seq<Operation>, i: nat)
    requires i < |operations|
    ensures IdsOf(operations[..i + 1]) == IdsOf(operations[..i]) + {operations[i].id}
    ensures AnimeIdsOf(operations[..i + 1]) == AnimeIdsOf(operations[..i]) + {operations[i].row.animeId}
  {
    var before, after := operations[..i], operations[..i + 1];
    assert after[i] == operations[i];
    assert forall k | 0 <= k < i :: after[k] == before[k];
  }

  lemma SupersededNext(t: Table, confirmed: seq<Operation>, i: nat)
    requires i < |confirmed| && StoredEdit(t, confirmed[i])
    ensures var left := t - SupersededIds(t, IdsOf(confirmed[..i]));
      left - SupersededBy(left, confirmed[i]) == t - SupersededIds(t, IdsOf(confirmed[..i + 1]))
  {
    IdsNext(confirmed, i);
    SupersededUnion(t, IdsOf(confirmed[..i]), confirmed[i]);
    var gone := SupersededIds(t, IdsOf(confirmed[..i]));
    hide SupersededIds, IdsOf;
    var left := t - gone;
    assert SupersededBy(left, confirmed[i]) == SupersededBy(t, confirmed[i]) - gone;
    assert (t - gone) - (SupersededBy(t, confirmed[i]) - gone) == t - (gone + SupersededBy(t, confirmed[i]));
  }

  // ----- The chain -----

  /** The chain statement wins the next row of each key, one per anime. */
  lemma ChainIsWon(t: Table, animeIds: set<AnimeId>, claim: Claim)
    ensures var t' := ClaimSuccessors(t, animeIds, claim);
      var rows := HeldRows(t', InQueueOrder(t, SuccessorIds(t, animeIds)), claim);
      && OnePerAnime(rows)
      && IdsOf(rows) == SuccessorIds(t, animeIds)
      && AnimeIdsOf(rows) <= animeIds
      && forall i | 0 <= i < |rows| :: Held(t', rows[i].id, claim) && rows[i].row == t'[rows[i].id]
  {
    hide InQueueOrder;
    var t' := ClaimSuccessors(t, animeIds, claim);
    SuccessorsAreClaimed(t, animeIds, claim);
    hide ClaimSuccessors;
    var ids := InQueueOrder(t, SuccessorIds(t, animeIds));
    forall i | 0 <= i < |ids|
      ensures ids[i] in t && t[ids[i]].animeId in animeIds && Oldest(t, ids[i])
      ensures Held(t', ids[i], claim) && SameIntent(t[ids[i]], t'[ids[i]])
    {
      assert ids[i] in SuccessorIds(t, animeIds);
    }
    var rows := HeldRows(t', ids, claim);
    AllHeldRows(t', ids, claim);
    hide Oldest, HeldRows;
    OldestAreOnePerAnime(t, ids, rows);
    IdsAreTheirs(rows, ids);
    assert forall i | 0 <= i < |rows| :: rows[i].row.animeId in animeIds;
  }

  lemma IdsAreTheirs(rows: seq<Operation>, ids: seq<nat>)
    requires |rows| == |ids| && forall i | 0 <= i < |ids| :: rows[i].id == ids[i]
    ensures forall id :: id in IdsOf(rows) <==> id in ids
  {
    forall id | id in ids ensures id in IdsOf(rows) {
      var i :| 0 <= i < |ids| && ids[i] == id;
      assert rows[i].id == id;
    }
  }

  lemma NoKeyNoSuccessor(t: Table, claim: Claim)
    ensures ClaimSuccessors(t, {}, claim) == t && SuccessorIds(t, {}) == {}
  {
  }

  // ----- A settlement as its holder sees it -----

  predicate ChainIsOver(claim: Claim, at: int) { at >= claim.claimedAt + OUTBOX_CHAIN_BUDGET_MS }

  /** The rows a settlement at `at` hands its holder to send next. */
  function ChainRows(t: Table, fates: map<nat, Fate>, claim: Claim, at: int): seq<Operation> {
    if ChainIsOver(claim, at) then []
    else HeldRows(SettleRound(t, fates, claim, at), InQueueOrder(Resolved(t, fates, claim), NextRows(t, fates, claim)), claim)
  }

  lemma LateSettlementHands(t: Table, fates: map<nat, Fate>, claim: Claim, at: int)
    requires ChainIsOver(claim, at)
    ensures Handed(t, SettleRound(t, fates, claim, at), claim, fates.Keys, {})
  {
    var t' := SettleRound(t, fates, claim, at);
    assert t' == Resolved(t, fates, claim);
    forall id | Held(t', id, claim) ensures id !in fates && Held(t, id, claim) && t'[id] == t[id] {
      assert id in Settle(t, fates, claim);
      ResolvedAt(t, fates, claim, id);
    }
  }

  /** After a settlement its holder has only what it did not answer and the rows of its chain, one per confirmed key. */
  lemma SettlementKeeps(t: Table, fates: map<nat, Fate>, claim: Claim, at: int)
    ensures var t' := SettleRound(t, fates, claim, at);
      var rows := ChainRows(t, fates, claim, at);
      && Handed(t, t', claim, fates.Keys, IdsOf(rows))
      && OnePerAnime(rows)
      && (forall i | 0 <= i < |rows| :: Held(t', rows[i].id, claim) && rows[i].row == t'[rows[i].id])
      && AnimeIdsOf(rows) <= AnimesOf(t, ConfirmedIds(t, fates, claim))
      && (rows != [] ==> ConfirmedIds(t, fates, claim) != {})
      && QueuedIds(t') <= QueuedIds(t) - ConfirmedIds(t, fates, claim)
  {
    hide InQueueOrder, HeldRows, Resolved;
    SettlementShrinksQueue(t, fates, claim, at);
    if ChainIsOver(claim, at) {
      LateSettlementHands(t, fates, claim, at);
      hide SettleRound;
      assert IdsOf(ChainRows(t, fates, claim, at)) == {};
    } else {
      SettlementHands(t, fates, claim, at);
      var animeIds := AnimesOf(t, ConfirmedIds(t, fates, claim));
      SettleRoundIsChained(t, fates, claim, at);
      hide SettleRound;
      ChainIsWon(Resolved(t, fates, claim), animeIds, claim);
      var rows := ChainRows(t, fates, claim, at);
      assert rows != [] ==> rows[0].row.animeId in AnimeIdsOf(rows);
    }
  }

  // ----- A reconcile answer -----

  /** The conflicts of rows still held, in order. */
  function HeldOutcomes(outcomes: seq<ConflictOutcome>, held: set<nat>): seq<ConflictOutcome> {
    if outcomes == [] then []
    else
      var last := outcomes[|outcomes| - 1];
      var before := HeldOutcomes(outcomes[..|outcomes| - 1], held);
      if last.operation.id in held then before + [last] else before
  }

  lemma {:induction false} HeldOutcomesAre(outcomes: seq<ConflictOutcome>, held: set<nat>, outcome: ConflictOutcome)
    ensures outcome in HeldOutcomes(outcomes, held) <==> outcome in outcomes && outcome.operation.id in held
  {
    if outcomes != [] {
      HeldOutcomesAre(outcomes[..|outcomes| - 1], held, outcome);
      assert outcomes == outcomes[..|outcomes| - 1] + [outcomes[|outcomes| - 1]];
    }
  }

  /** Re-basing only the held conflicts is re-basing them all under the held guard. */
  lemma {:induction false} RebasingHeld(animes: Animes, outcomes: seq<ConflictOutcome>, held: set<nat>, t: Table, claim: Claim)
    requires forall i | 0 <= i < |outcomes| :: outcomes[i].operation.id in held <==> Held(t, outcomes[i].operation.id, claim)
    ensures WriteRebases(animes, RebasesOf(HeldOutcomes(outcomes, held)), t, claim)
      == WriteRebases(animes, RebasesOf(outcomes), t, claim)
  {
    if outcomes != [] {
      var before, last := outcomes[..|outcomes| - 1], outcomes[|outcomes| - 1];
      RebasingHeld(animes, before, held, t, claim);
      assert RebasesOf(outcomes)[..|outcomes| - 1] == RebasesOf(before);
      if last.operation.id in held {
        var kept := HeldOutcomes(outcomes, held);
        assert kept[..|kept| - 1] == HeldOutcomes(before, held);
        assert RebasesOf(kept)[..|kept| - 1] == RebasesOf(HeldOutcomes(before, held));
      }
    }
  }

  /** What the classification of an answer puts in each bucket. */
  ghost predicate Classified(operations: seq<Operation>, response: Response, bases: Tokens, confirmed: seq<nat>,
                             remaining: seq<nat>, deadLetters: seq<nat>)
  {
    var rest := Unconfirmed(operations, response);
    && (forall id :: id in confirmed <==>
          exists i | 0 <= i < |operations| ::
            operations[i].id == id && IsOperationConfirmed(operations[i], response.applied, response.changes))
    && (forall id :: id in remaining <==>
          exists i | 0 <= i < |rest| :: rest[i].id == id && GoesBack(RejectionOf(rest[i], response.applied, bases)))
    && (forall id :: id in deadLetters <==>
          exists i | 0 <= i < |rest| :: rest[i].id == id && RejectionOf(rest[i], response.applied, bases) == Some(Unsupported))
  }

  /** Each edit's bucket is its fate. */
  lemma BucketOf(operations: seq<Operation>, response: Response, bases: Tokens, confirmed: seq<nat>,
                 remaining: seq<nat>, deadLetters: seq<nat>, i: nat)
    requires OnePerAnime(operations) && i < |operations|
    requires Classified(operations, response, bases, confirmed, remaining, deadLetters)
    ensures var fate, id := FateOf(operations[i], response, bases), operations[i].id;
      && (id in confirmed <==> fate == Confirm)
      && (id in remaining <==> fate == Return)
      && (id in deadLetters <==> fate == GiveUp(None))
      && (fate.Conflict? || fate == Confirm || fate == Return || fate == GiveUp(None))
  {
    var operation := operations[i];
    var rest := Unconfirmed(operations, response);
    UnconfirmedAre(operations, response, operation);
    assert forall k | 0 <= k < |rest| && rest[k].id == operation.id :: rest[k] == operation by {
      forall k | 0 <= k < |rest| && rest[k].id == operation.id ensures rest[k] == operation {
        UnconfirmedAre(operations, response, rest[k]);
      }
    }
    if !IsOperationConfirmed(operation, response.applied, response.changes) {
      var k :| 0 <= k < |rest| && rest[k] == operation;
    }
  }

  /** A conflict written for a held row is the fate of that row. */
  lemma OutcomeAgrees(db: Db, operations: seq<Operation>, response: Response, bases: Tokens, claim: Claim,
                      outcome: ConflictOutcome)
    requires Carried(operations, db, claim) && OnePerAnime(operations)
    requires outcome in ConflictOutcomes(Unconfirmed(operations, response), response.applied, bases)
    requires Held(db.log, outcome.operation.id, claim)
    ensures var fates, id := FatesOf(operations, response, bases), outcome.operation.id;
      id in fates && ApplyFate(db.log[id], fates[id]) == ConflictRow(db.log[id], outcome)
  {
    var rest := Unconfirmed(operations, response);
    FatesOfAt(operations, response, bases);
    ConflictOutcomesAre(rest, response.applied, bases, outcome);
    UnconfirmedAre(operations, response, outcome.operation);
    var k :| 0 <= k < |operations| && operations[k] == outcome.operation;
    hide FatesOf, ConflictOutcomes, Unconfirmed;
    assert Current(operations[k], db.log, claim);
    FateWritesItsRejection(operations[k], response, bases);
  }

  /** A held row whose fate is a conflict has its outcome among those written. */
  lemma ConflictIsWritten(operations: seq<Operation>, response: Response, bases: Tokens, held: set<nat>, i: nat)
    requires i < |operations| && operations[i].id in held && FateOf(operations[i], response, bases).Conflict?
    ensures operations[i].id
      in OutcomeIds(HeldOutcomes(ConflictOutcomes(Unconfirmed(operations, response), response.applied, bases), held))
  {
    var rest := Unconfirmed(operations, response);
    FateWritesItsRejection(operations[i], response, bases);
    UnconfirmedAre(operations, response, operations[i]);
    var outcome := OutcomeOf(operations[i], RejectionOf(operations[i], response.applied, bases).value);
    ConflictOutcomesAre(rest, response.applied, bases, outcome);
    HeldOutcomesAre(ConflictOutcomes(rest, response.applied, bases), held, outcome);
  }

  lemma AnswerBuckets(db: Db, operations: seq<Operation>, response: Response, bases: Tokens, claim: Claim,
                      confirmed: seq<nat>, remaining: seq<nat>, deadLetters: seq<nat>)
    requires Carried(operations, db, claim) && OnePerAnime(operations)
    requires Classified(operations, response, bases, confirmed, remaining, deadLetters)
    ensures var held := HeldIds(db.log, IdsOf(operations), claim);
      var outcomes := ConflictOutcomes(Unconfirmed(operations, response), response.applied, bases);
      Buckets(db.log, FatesOf(operations, response, bases), claim, HeldOutcomes(outcomes, held),
              deadLetters, confirmed, remaining)
  {
    hide FatesOf, ConflictOutcomes, Unconfirmed, Classified, Carried, HeldOutcomes, ApplyFate, FateOf, OutcomeIds, ConflictRow,
      OnePerAnime;
    var fates := FatesOf(operations, response, bases);
    var held := HeldIds(db.log, IdsOf(operations), claim);
    var outcomes := ConflictOutcomes(Unconfirmed(operations, response), response.applied, bases);
    var kept := HeldOutcomes(outcomes, held);
    FatesOfAt(operations, response, bases);
    forall i | 0 <= i < |kept|
      ensures var id := kept[i].operation.id;
        id in fates && Held(db.log, id, claim) && ApplyFate(db.log[id], fates[id]) == ConflictRow(db.log[id], kept[i])
    {
      HeldOutcomesAre(outcomes, held, kept[i]);
      OutcomeAgrees(db, operations, response, bases, claim, kept[i]);
    }
    forall id | id in fates && Held(db.log, id, claim)
      ensures id in OutcomeIds(kept) || id in deadLetters || id in confirmed || id in remaining
    {
      var i :| 0 <= i < |operations| && operations[i].id == id;
      BucketOf(operations, response, bases, confirmed, remaining, deadLetters, i);
      if FateOf(operations[i], response, bases).Conflict? {
        ConflictIsWritten(operations, response, bases, held, i);
      }
    }
    BucketsAreTheirFates(operations, response, bases, confirmed, remaining, deadLetters);
  }

  lemma BucketsAreTheirFates(operations: seq<Operation>, response: Response, bases: Tokens, confirmed: seq<nat>,
                             remaining: seq<nat>, deadLetters: seq<nat>)
    requires OnePerAnime(operations)
    requires Classified(operations, response, bases, confirmed, remaining, deadLetters)
    ensures var fates := FatesOf(operations, response, bases);
      && (forall id | id in deadLetters :: id in fates && fates[id] == GiveUp(None))
      && (forall id | id in confirmed :: id in fates && fates[id] == Confirm)
      && (forall id | id in remaining :: id in fates && fates[id] == Return)
  {
    var rest := Unconfirmed(operations, response);
    FatesOfAt(operations, response, bases);
    forall id | id in deadLetters || id in confirmed || id in remaining
      ensures exists i | 0 <= i < |operations| :: operations[i].id == id
    {
      if id in deadLetters || id in remaining {
        var k :| 0 <= k < |rest| && rest[k].id == id;
        UnconfirmedAre(operations, response, rest[k]);
        var i :| 0 <= i < |operations| && operations[i] == rest[k];
        assert operations[i].id == id;
      }
    }
    forall i | 0 <= i < |operations|
      ensures var fate, id := FateOf(operations[i], response, bases), operations[i].id;
        (id in confirmed <==> fate == Confirm) && (id in remaining <==> fate == Return)
        && (id in deadLetters <==> fate == GiveUp(None))
    {
      BucketOf(operations, response, bases, confirmed, remaining, deadLetters, i);
    }
  }

  function AnsweredCursor(response: Response, sent: int): int {
    if response.lastChangelogId.Some? then response.lastChangelogId.value else sent
  }

  /** The step the transaction of an answer takes. */
  function AnswerStep(operations: seq<Operation>, response: Response, bases: Tokens, sent: int, pairingId: nat, claim: Claim)
    : Step
  {
    SettleReconcile(claim, FatesOf(operations, response, bases), ConfirmedTokens(response.applied),
      RebasesOf(ConflictOutcomes(Unconfirmed(operations, response), response.applied, bases)),
      NormalizeChanges(response.changes), sent, AnsweredCursor(response, sent), pairingId)
  }

  ghost predicate EditsOnly(operations: seq<Operation>) {
    forall i | 0 <= i < |operations| :: operations[i].row.operation != SEASON_RATING_OPERATION
  }

  /** The operations among `operations` held and confirmed, as the transaction collects them. */
  ghost predicate CollectedFrom(operations: seq<Operation>, held: set<nat>, confirmed: seq<nat>, animeIds: set<AnimeId>,
                                kept: seq<Operation>)
  {
    && animeIds == (set i | 0 <= i < |operations| && operations[i].id in held :: operations[i].row.animeId)
    && (forall i | 0 <= i < |kept| :: kept[i] in operations)
    && (forall i | 0 <= i < |operations| :: operations[i] in kept <==> operations[i].id in held && operations[i].id in confirmed)
  }

  lemma {:induction false} DistinctIdsCount(operations: seq<Operation>)
    requires OnePerAnime(operations)
    ensures |IdsOf(operations)| == |operations|
  {
    if operations != [] {
      var before := operations[..|operations| - 1];
      DistinctIdsCount(before);
      IdsNext(operations, |operations| - 1);
      assert operations[..|operations|] == operations;
    }
  }

  /** What a transaction collects is what its settlement confirms, and the animes its claim speaks for. */
  lemma CollectedAreConfirmed(db: Db, operations: seq<Operation>, response: Response, bases: Tokens, claim: Claim,
                              confirmed: seq<nat>, remaining: seq<nat>, deadLetters: seq<nat>,
                              animeIds: set<AnimeId>, kept: seq<Operation>)
    requires Carried(operations, db, claim) && OnePerAnime(operations)
    requires Classified(operations, response, bases, confirmed, remaining, deadLetters)
    requires CollectedFrom(operations, HeldIds(db.log, IdsOf(operations), claim), confirmed, animeIds, kept)
    ensures var fates := FatesOf(operations, response, bases);
      && IdsOf(kept) == ConfirmedIds(db.log, fates, claim)
      && AnimeIdsOf(kept) == AnimesOf(db.log, ConfirmedIds(db.log, fates, claim))
      && animeIds == HeldAnimes(db.log, fates, claim)
      && forall i | 0 <= i < |kept| :: kept[i] in operations && Held(db.log, kept[i].id, claim)
           && db.log[kept[i].id] == kept[i].row
  {
    var fates := FatesOf(operations, response, bases);
    var held := HeldIds(db.log, IdsOf(operations), claim);
    FatesOfAt(operations, response, bases);
    forall i | 0 <= i < |operations|
      ensures operations[i].id in fates && (operations[i].id in held <==> Held(db.log, operations[i].id, claim))
      ensures operations[i].id in held ==> db.log[operations[i].id] == operations[i].row
      ensures operations[i].id in confirmed <==> fates[operations[i].id] == Confirm
    {
      assert Current(operations[i], db.log, claim);
      BucketOf(operations, response, bases, confirmed, remaining, deadLetters, i);
    }
    forall i | 0 <= i < |kept|
      ensures kept[i].id in ConfirmedIds(db.log, fates, claim) && db.log[kept[i].id] == kept[i].row
    {
      var k :| 0 <= k < |operations| && operations[k] == kept[i];
    }
    forall id | id in ConfirmedIds(db.log, fates, claim)
      ensures id in IdsOf(kept) && db.log[id].animeId in AnimeIdsOf(kept)
    {
      var k :| 0 <= k < |operations| && operations[k].id == id;
      assert operations[k] in kept;
    }
    assert AnimeIdsOf(kept) <= AnimesOf(db.log, ConfirmedIds(db.log, fates, claim)) by {
      forall i | 0 <= i < |kept| ensures kept[i].row.animeId in AnimesOf(db.log, ConfirmedIds(db.log, fates, claim)) {
        assert kept[i].id in ConfirmedIds(db.log, fates, claim);
      }
    }
    HeldAnimesAre(db, operations, fates, claim, held, animeIds);
  }

  lemma HeldAnimesAre(db: Db, operations: seq<Operation>, fates: map<nat, Fate>, claim: Claim, held: set<nat>,
                      animeIds: set<AnimeId>)
    requires fates.Keys == IdsOf(operations)
    requires animeIds == (set i | 0 <= i < |operations| && operations[i].id in held :: operations[i].row.animeId)
    requires forall i | 0 <= i < |operations| ::
      && (operations[i].id in held <==> Held(db.log, operations[i].id, claim))
      && (operations[i].id in held ==> db.log[operations[i].id] == operations[i].row)
    ensures animeIds == HeldAnimes(db.log, fates, claim)
  {
    forall animeId | animeId in HeldAnimes(db.log, fates, claim) ensures animeId in animeIds {
      var id :| id in fates && Held(db.log, id, claim) && db.log[id].animeId == animeId;
      var i :| 0 <= i < |operations| && operations[i].id == id;
    }
  }

  /** The writes of an answer, put together, are its step. */
  lemma AnswerStepIs(before: Db, operations: seq<Operation>, response: Response, bases: Tokens, sent: int, pairingId: nat,
                     claim: Claim, at: int, animes: Animes, staged: seq<RemoteChange>, held: set<nat>)
    requires held == HeldIds(before.log, IdsOf(operations), claim)
    requires OnePerAnime(operations)
    requires var (merged, kept) := Pass(before.animes, before.staged, NormalizeChanges(response.changes), Unacked(before.log));
      var speaksFor := HeldAnimes(before.log, FatesOf(operations, response, bases), claim);
      var outcomes := ConflictOutcomes(Unconfirmed(operations, response), response.applied, bases);
      var tokens := ConfirmedTokens(response.applied);
      && staged == kept
      && animes == WriteRebases(WriteTokens(merged, map id | id in tokens && id in speaksFor :: tokens[id]),
                                RebasesOf(HeldOutcomes(outcomes, held)), before.log, claim)
    ensures var step := AnswerStep(operations, response, bases, sent, pairingId, claim);
      && Next(before, Timed(at, step)) == Db(
           SettleRound(before.log, FatesOf(operations, response, bases), claim, at), before.nextId, animes, staged,
           AdvanceCursor(before.pairing, pairingId, sent, AnsweredCursor(response, sent)), at)
      && (ValidStep(before, Timed(at, step)) <==> before.now <= at && ReadFromCursor(before.pairing, pairingId, sent))
      && ConfirmedBy(before, step) == ConfirmedIds(before.log, FatesOf(operations, response, bases), claim)
  {
    hide Pass, Unacked, ConfirmedTokens, SettleRound, WriteTokens, FatesOf;
    var rest := Unconfirmed(operations, response);
    var outcomes := ConflictOutcomes(rest, response.applied, bases);
    forall i | 0 <= i < |outcomes|
      ensures outcomes[i].operation.id in held <==> Held(before.log, outcomes[i].operation.id, claim)
    {
      ConflictOutcomesAre(rest, response.applied, bases, outcomes[i]);
      UnconfirmedAre(operations, response, outcomes[i].operation);
    }
    var merged := Pass(before.animes, before.staged, NormalizeChanges(response.changes), Unacked(before.log)).0;
    var speaksFor := HeldAnimes(before.log, FatesOf(operations, response, bases), claim);
    var tokens := ConfirmedTokens(response.applied);
    RebasingHeld(WriteTokens(merged, map id | id in tokens && id in speaksFor :: tokens[id]), outcomes, held, before.log, claim);
  }

  /** The confirmed rows are still there, as edits, once their fates are written. */
  lemma ConfirmedAreStored(db: Db, operations: seq<Operation>, fates: map<nat, Fate>, claim: Claim, settled: Table,
                           kept: seq<Operation>)
    requires EditsOnly(operations) && settled == Settle(db.log, fates, claim)
    requires forall i | 0 <= i < |kept| ::
      kept[i] in operations && Held(db.log, kept[i].id, claim) && db.log[kept[i].id] == kept[i].row
    ensures forall i | 0 <= i < |kept| :: StoredEdit(settled, kept[i])
  {
  }

  // ----- Releases and ratings -----

  function SameFate(ids: set<nat>, fate: Fate): map<nat, Fate> { map id | id in ids :: fate }

  /** Releasing rows confirms nothing, so it is the status write and nothing more. */
  lemma ReleaseIsSettlement(t: Table, ids: set<nat>, fate: Fate, claim: Claim, at: int)
    requires !fate.Confirm?
    ensures SettleRound(t, SameFate(ids, fate), claim, at) == UpdateHeld(t, ids, claim, fate)
    ensures ConfirmedIds(t, SameFate(ids, fate), claim) == {}
    ensures ChainRows(t, SameFate(ids, fate), claim, at) == []
    ensures Handed(t, UpdateHeld(t, ids, claim, fate), claim, ids, {})
    ensures QueuedIds(UpdateHeld(t, ids, claim, fate)) <= QueuedIds(t)
  {
    var fates := SameFate(ids, fate);
    assert ConfirmedIds(t, fates, claim) == {};
    var settled := Settle(t, fates, claim);
    assert settled == UpdateHeld(t, ids, claim, fate);
    assert SupersededIds(settled, {}) == {};
    assert settled - {} == settled;
    NoKeyNoSuccessor(settled, claim);
    assert AnimesOf(t, {}) == {};
    if !ChainIsOver(claim, at) {
      SettlementKeeps(t, fates, claim, at);
      var rows := ChainRows(t, fates, claim, at);
      assert rows == [];
    }
  }

  /** A rating held by the claim: its fate, the ratings it supersedes and its anime's next row, in one step. */
  lemma RatingIsSettlement(t: Table, rating: Operation, fate: Fate, claim: Claim, at: int)
    requires Held(t, rating.id, claim)
    ensures var fates := map[rating.id := fate];
      var settled := UpdateHeld(t, {rating.id}, claim, fate);
      && ConfirmedIds(t, fates, claim) == (if fate.Confirm? then {rating.id} else {})
      && AnimesOf(t, ConfirmedIds(t, fates, claim)) == (if fate.Confirm? then {t[rating.id].animeId} else {})
      && Settle(t, fates, claim) == settled
      && Resolved(t, fates, claim)
         == (if fate.Confirm? then settled - SupersededIds(settled, {rating.id}) else settled)
  {
    var fates := map[rating.id := fate];
    var settled := UpdateHeld(t, {rating.id}, claim, fate);
    assert Settle(t, fates, claim) == settled;
    if !fate.Confirm? {
      assert SupersededIds(settled, {}) == {};
      assert settled - {} == settled;
    }
  }

  lemma RowsStep(before: Db, fates: map<nat, Fate>, claim: Claim, at: int)
    ensures var timed := Timed(at, SettleRows(claim, fates));
      && Next(before, timed) == before.(log := SettleRound(before.log, fates, claim, at), now := at)
      && (ValidStep(before, timed) <==> before.now <= at)
      && ConfirmedBy(before, timed.step) == ConfirmedIds(before.log, fates, claim)
  {
    hide SettleRound;
  }

  // ----- Missing tokens -----

  /** Gives a key up: its held rows, then its unclaimed pending edits, with one reason. */
  function GiveKeyUp(t: Table, animeId: AnimeId, heldIds: set<nat>, claim: Claim, why: string): Table {
    var released := UpdateHeld(t, heldIds, claim, GiveUp(Some(why)));
    map id | id in released ::
      if released[id].animeId == animeId && released[id].operation == ANIME_UPDATE_OPERATION
         && released[id].status == Pending && released[id].claim.None?
      then released[id].(status := DeadLetter, claim := None, reason := Some(why))
      else released[id]
  }

  function StoreFetched(animes: Animes, animeId: AnimeId, token: int, t: Table, claim: Claim): Animes {
    if animeId in animes && animes[animeId].token.None? && ClaimHoldsAnime(t, animeId, claim)
    then animes[animeId := animes[animeId].(token := Some(token))]
    else animes
  }

  /** The fetched outcomes of some animes only. */
  function OutcomesOf(outcomes: map<AnimeId, TokenOutcome>, animeIds: seq<AnimeId>): map<AnimeId, TokenOutcome> {
    map animeId | animeId in outcomes && animeId in animeIds :: outcomes[animeId]
  }

  /** The ids among `operations` of one anime. */
  function IdsOfAnime(operations: seq<Operation>, animeId: AnimeId): set<nat> {
    set i | 0 <= i < |operations| && operations[i].row.animeId == animeId :: operations[i].id
  }

  lemma OutcomesNext(outcomes: map<AnimeId, TokenOutcome>, missing: seq<AnimeId>, i: nat)
    requires i < |missing| && missing[i] in outcomes
    ensures OutcomesOf(outcomes, missing[..i + 1]) == OutcomesOf(outcomes, missing[..i])[missing[i] := outcomes[missing[i]]]
  {
    assert missing[..i + 1] == missing[..i] + [missing[i]];
  }

  /** The writes of one outcome on the rows an earlier outcome left. */
  function WriteOutcome(t: Table, animeId: AnimeId, heldIds: set<nat>, claim: Claim, outcome: TokenOutcome): Table {
    match outcome
    case Token(_) => t
    case Unreachable => UpdateHeld(t, heldIds, claim, Return)
    case Unresolved(why) => GiveKeyUp(t, animeId, heldIds, claim, why)
  }

  /** The one thing a fetched token may change: an anime with none stored, under a claim that still holds its row, has it. */
  ghost predicate TokenIsStored(before: Animes, after: Animes, animeId: AnimeId, token: int, held: bool) {
    && after.Keys == before.Keys
    && (forall id | id in before ::
          && after[id].columns == before[id].columns && after[id].guard == before[id].guard
          && (id != animeId || before[id].token.Some? || !held ==> after[id].token == before[id].token))
    && (animeId in before && before[animeId].token.None? && held ==> after[animeId].token == Some(token))
  }

  /** A fetch that came to nothing puts every row it holds back in the queue as it was, and writes no other. */
  ghost predicate KeyIsReleased(t: Table, t': Table, heldIds: set<nat>, claim: Claim) {
    && t'.Keys == t.Keys && QueuedIds(t') == QueuedIds(t) && HeldIds(t', heldIds, claim) == {}
    && forall id | id in t ::
         && SameIntent(t[id], t'[id]) && t'[id].attempts == t[id].attempts && t'[id].reason == t[id].reason
         && (if id in HeldIds(t, heldIds, claim) then t'[id].status == Pending && t'[id].claim.None? else t'[id] == t[id])
  }

  /**
   * A row of a table in which a key was given up. If it is still queued as an edit of the key, it is under somebody else's
   * hands, unwritten; if it was written, it was queued, as an edit of the key or held, and has left with the reason.
   */
  predicate RowIsGivenUp(row: Row, after: Row, held: bool, animeId: AnimeId, why: string) {
    var edit := row.animeId == animeId && row.operation == ANIME_UPDATE_OPERATION;
    && SameIntent(row, after) && after.attempts == row.attempts
    && (edit && Queued(after) ==> after == row && (row.status == Processing || row.claim.Some?))
    && (after != row ==>
          Queued(row) && after.status == DeadLetter && after.reason == Some(why) && after.claim.None? && (held || edit))
    && (held ==> after != row)
  }

  /** No edit of a key given up can be sent any more but what somebody else holds; its other ratings stay. */
  ghost predicate KeyIsGivenUp(t: Table, t': Table, animeId: AnimeId, heldIds: set<nat>, claim: Claim, why: string) {
    && t'.Keys == t.Keys && HeldIds(t', heldIds, claim) == {}
    && forall id | id in t :: RowIsGivenUp(t[id], t'[id], id in heldIds && Held(t, id, claim), animeId, why)
  }

  lemma StoringMeans(animes: Animes, animeId: AnimeId, token: int, t: Table, claim: Claim)
    ensures TokenIsStored(animes, StoreFetched(animes, animeId, token, t, claim), animeId, token,
                          ClaimHoldsAnime(t, animeId, claim))
  {
    hide ClaimHoldsAnime;
  }

  lemma ReleasingMeans(t: Table, heldIds: set<nat>, claim: Claim)
    ensures KeyIsReleased(t, UpdateHeld(t, heldIds, claim, Return), heldIds, claim)
  {
  }

  lemma GivenUpRow(t: Table, animeId: AnimeId, heldIds: set<nat>, claim: Claim, why: string, id: nat)
    requires id in t
    ensures var t' := GiveKeyUp(t, animeId, heldIds, claim, why);
      && id in t' && RowIsGivenUp(t[id], t'[id], id in heldIds && Held(t, id, claim), animeId, why)
      && (id in heldIds ==> !Held(t', id, claim))
  {
  }

  lemma GivingUpMeans(t: Table, animeId: AnimeId, heldIds: set<nat>, claim: Claim, why: string)
    ensures KeyIsGivenUp(t, GiveKeyUp(t, animeId, heldIds, claim, why), animeId, heldIds, claim, why)
  {
    assert GiveKeyUp(t, animeId, heldIds, claim, why).Keys == t.Keys;
    hide GiveKeyUp, RowIsGivenUp;
    forall id | id in t
      ensures RowIsGivenUp(t[id], GiveKeyUp(t, animeId, heldIds, claim, why)[id], id in heldIds && Held(t, id, claim), animeId, why)
      ensures id in heldIds ==> !Held(GiveKeyUp(t, animeId, heldIds, claim, why), id, claim)
    {
      GivenUpRow(t, animeId, heldIds, claim, why, id);
    }
  }

  lemma OutcomeRow(t: Table, animeId: AnimeId, heldIds: set<nat>, claim: Claim, outcome: TokenOutcome, id: nat)
    requires id in t
    requires Held(t, id, claim) && id in heldIds ==> t[id].animeId == animeId
    ensures id in WriteOutcome(t, animeId, heldIds, claim, outcome)
    ensures WriteOutcome(t, animeId, heldIds, claim, outcome)[id]
      == if t[id].animeId == animeId then FetchFirstRow(t[id], id in heldIds && Held(t, id, claim), outcome) else t[id]
  {
  }

  /** The rows of one anime follow its outcome; the rows of the others stay as they were left. */
  lemma FetchRowsNext(db: Db, operations: seq<Operation>, outcomes: map<AnimeId, TokenOutcome>, claim: Claim,
                      animeId: AnimeId, outcome: TokenOutcome)
    requires Carried(operations, db, claim) && animeId !in outcomes
    ensures FetchFirst(db.log, IdsOf(operations), outcomes[animeId := outcome], claim)
      == WriteOutcome(FetchFirst(db.log, IdsOf(operations), outcomes, claim), animeId,
                      IdsOfAnime(operations, animeId), claim, outcome)
  {
    var t := FetchFirst(db.log, IdsOf(operations), outcomes, claim);
    var ids := IdsOfAnime(operations, animeId);
    var wanted := FetchFirst(db.log, IdsOf(operations), outcomes[animeId := outcome], claim);
    var written := WriteOutcome(t, animeId, ids, claim, outcome);
    forall id | id in db.log ensures id in written && written[id] == wanted[id] {
      if Held(db.log, id, claim) {
        HeldRowsOfAnime(db, operations, claim, animeId, id);
      }
      FetchFirstRowIs(db.log, IdsOf(operations), outcomes, claim, id);
      FetchFirstRowIs(db.log, IdsOf(operations), outcomes[animeId := outcome], claim, id);
      hide FetchFirst, WriteOutcome, FetchFirstRow;
      OutcomeRow(t, animeId, ids, claim, outcome, id);
    }
    assert written.Keys == wanted.Keys by {
      assert t.Keys == db.log.Keys;
    }
  }

  lemma FetchFirstRowIs(t: Table, ids: set<nat>, outcomes: map<AnimeId, TokenOutcome>, claim: Claim, id: nat)
    requires id in t
    ensures var t' := FetchFirst(t, ids, outcomes, claim);
      && id in t' && t'[id].animeId == t[id].animeId
      && (t[id].animeId !in outcomes ==> t'[id] == t[id])
      && (t[id].animeId in outcomes ==>
            t'[id] == FetchFirstRow(t[id], id in ids && Held(t, id, claim), outcomes[t[id].animeId]))
      && (Held(t', id, claim) ==> Held(t, id, claim) && t'[id] == t[id])
  {
  }

  lemma HeldRowsOfAnime(db: Db, operations: seq<Operation>, claim: Claim, animeId: AnimeId, id: nat)
    requires Carried(operations, db, claim) && Held(db.log, id, claim)
    ensures id in IdsOfAnime(operations, animeId) <==> id in IdsOf(operations) && db.log[id].animeId == animeId
  {
    if id in IdsOf(operations) {
      var i :| 0 <= i < |operations| && operations[i].id == id;
      assert Current(operations[i], db.log, claim);
    }
  }

  lemma FetchTokensNext(animes: Animes, t: Table, ids: set<nat>, outcomes: map<AnimeId, TokenOutcome>, claim: Claim,
                        animeId: AnimeId, outcome: TokenOutcome)
    requires animeId !in outcomes
    ensures WriteFetched(animes, outcomes[animeId := outcome], t, claim)
      == if outcome.Token?
         then StoreFetched(WriteFetched(animes, outcomes, t, claim), animeId, outcome.token,
                           FetchFirst(t, ids, outcomes, claim), claim)
         else WriteFetched(animes, outcomes, t, claim)
  {
    var t' := FetchFirst(t, ids, outcomes, claim);
    assert ClaimHoldsAnime(t', animeId, claim) <==> ClaimHoldsAnime(t, animeId, claim) by {
      assert forall id | id in t && t[id].animeId == animeId :: t'[id] == t[id];
    }
  }

  lemma FetchStep(before: Db, ids: set<nat>, outcomes: map<AnimeId, TokenOutcome>, claim: Claim, at: int)
    ensures var timed := Timed(at, FetchMissing(claim, ids, outcomes));
      && Next(before, timed) == before.(log := FetchFirst(before.log, ids, outcomes, claim),
                                        animes := WriteFetched(before.animes, outcomes, before.log, claim), now := at)
      && (ValidStep(before, timed) <==> before.now <= at)
      && ConfirmedBy(before, timed.step) == {}
  {
  }

  /** Nothing of the claim outlives a failed fetch: a row still held has a token, stored or fetched. */
  lemma FetchedRowsHaveTokens(db: Db, operations: seq<Operation>, outcomes: map<AnimeId, TokenOutcome>, claim: Claim,
                              i: nat)
    requires Carried(operations, db, claim) && i < |operations| && operations[i].row.animeId in outcomes
    requires Held(FetchFirst(db.log, IdsOf(operations), outcomes, claim), operations[i].id, claim)
    ensures outcomes[operations[i].row.animeId].Token?
  {
    assert Current(operations[i], db.log, claim);
    assert operations[i].id in IdsOf(operations);
  }

  lemma FetchFirstHandsBack(t: Table, ids: set<nat>, outcomes: map<AnimeId, TokenOutcome>, claim: Claim)
    ensures Handed(t, FetchFirst(t, ids, outcomes, claim), claim, {}, {})
  {
  }

  lemma FetchNothing(db: Db, ids: set<nat>, claim: Claim)
    ensures FetchFirst(db.log, ids, map[], claim) == db.log
    ensures WriteFetched(db.animes, map[], db.log, claim) == db.animes
    ensures forall outcomes: map<AnimeId, TokenOutcome> :: OutcomesOf(outcomes, []) == map[]
  {
  }

  /** A stored token leaves the outbox alone. */
  lemma TokensLeaveRows(t: Table, animeId: AnimeId, heldIds: set<nat>, claim: Claim, outcome: TokenOutcome)
    ensures outcome.Token? ==> WriteOutcome(t, animeId, heldIds, claim, outcome) == t
  {
  }

  lemma NoChainRows(t: Table, fates: map<nat, Fate>, claim: Claim, at: int)
    requires ConfirmedIds(t, fates, claim) == {}
    ensures ChainRows(t, fates, claim, at) == []
    ensures SettleRound(t, fates, claim, at) == Resolved(t, fates, claim)
  {
    SettlementKeeps(t, fates, claim, at);
    NoKeyNoSuccessor(Resolved(t, fates, claim), claim);
    assert AnimesOf(t, {}) == {};
  }

  /** An answer to no edit settles no row. */
  lemma NothingToSettle(t: Table, response: Response, bases: Tokens, claim: Claim, at: int)
    ensures SettleRound(t, FatesOf([], response, bases), claim, at) == t
  {
    var none: map<nat, Fate> := map[];
    assert FatesOf([], response, bases) == none;
    assert ConfirmedIds(t, none, claim) == {};
    NoChainRows(t, none, claim, at);
    assert Settle(t, none, claim) == t;
    assert SupersededIds(t, {}) == {};
  }

  // ----- What an answer leaves of its round -----

  /** The rows of `settled`, queued before, have left the queue: as many as were counted. */
  ghost predicate Cleared(t: Table, t': Table, settled: set<nat>, count: nat) {
    settled <= QueuedIds(t) && settled !! QueuedIds(t') && |settled| == count
  }

  lemma AnswerLeaves(before: Db, after: Db, operations: seq<Operation>, response: Response, bases: Tokens, claim: Claim,
                     successors: seq<Operation>)
    requires WellFormed(after) && Later(before, after) && OnePerAnime(operations) && Carried(operations, before, claim)
    requires after.log == SettleRound(before.log, FatesOf(operations, response, bases), claim, after.now)
    requires successors == ChainRows(before.log, FatesOf(operations, response, bases), claim, after.now)
    ensures Round(before, after, true, claim, operations, successors)
    ensures (forall operation | operation in operations :: Held(before.log, operation.id, claim))
            && Unconfirmed(operations, response) == []
        ==> Cleared(before.log, after.log, IdsOf(operations), |operations|)
  {
    hide SettleRound, ChainRows, Later, Handed, FateOf;
    var fates := FatesOf(operations, response, bases);
    FatesOfAt(operations, response, bases);
    hide FatesOf;
    SettlementKeeps(before.log, fates, claim, after.now);
    HeldRowsAreCarried(successors, after, claim);
    hide Carried;
    SettlementLeavesRound(before, after, operations, fates, claim, successors);
    if (forall operation | operation in operations :: Held(before.log, operation.id, claim))
       && Unconfirmed(operations, response) == [] {
      AllConfirmed(before.log, operations, response, bases, claim);
      DistinctIdsCount(operations);
      assert ConfirmedIds(before.log, fates, claim) <= QueuedIds(before.log);
    }
  }

  /** Every edit held and evidenced is confirmed. */
  lemma AllConfirmed(t: Table, operations: seq<Operation>, response: Response, bases: Tokens, claim: Claim)
    requires OnePerAnime(operations) && Unconfirmed(operations, response) == []
    requires forall operation | operation in operations :: Held(t, operation.id, claim)
    ensures IdsOf(operations) <= ConfirmedIds(t, FatesOf(operations, response, bases), claim)
  {
    FatesOfAt(operations, response, bases);
    forall i | 0 <= i < |operations|
      ensures operations[i].id in ConfirmedIds(t, FatesOf(operations, response, bases), claim)
    {
      UnconfirmedAre(operations, response, operations[i]);
      assert operations[i] in operations;
    }
  }

  /** What a settlement keeps, read as a round over the rows it answers. */
  lemma SettlementLeavesRound(before: Db, after: Db, operations: seq<Operation>, fates: map<nat, Fate>, claim: Claim,
                              successors: seq<Operation>)
    requires Later(before, after) && Carried(operations, before, claim) && Carried(successors, after, claim)
    requires fates.Keys == IdsOf(operations)
    requires Handed(before.log, after.log, claim, fates.Keys, IdsOf(successors))
    requires AnimeIdsOf(successors) <= AnimesOf(before.log, ConfirmedIds(before.log, fates, claim))
    requires successors != [] ==> ConfirmedIds(before.log, fates, claim) != {}
    requires QueuedIds(after.log) <= QueuedIds(before.log) - ConfirmedIds(before.log, fates, claim)
    ensures Round(before, after, true, claim, operations, successors)
  {
    var confirmed := ConfirmedIds(before.log, fates, claim);
    ConfirmedAnimesAreTheirs(before, operations, fates, claim);
    if successors != [] {
      var id :| id in confirmed;
      assert id in QueuedIds(before.log) && id !in QueuedIds(after.log);
    }
  }

  lemma ConfirmedAnimesAreTheirs(db: Db, operations: seq<Operation>, fates: map<nat, Fate>, claim: Claim)
    requires Carried(operations, db, claim) && fates.Keys == IdsOf(operations)
    ensures AnimesOf(db.log, ConfirmedIds(db.log, fates, claim)) <= AnimeIdsOf(operations)
  {
    forall id | id in ConfirmedIds(db.log, fates, claim) ensures db.log[id].animeId in AnimeIdsOf(operations) {
      var i :| 0 <= i < |operations| && operations[i].id == id;
      assert Current(operations[i], db.log, claim);
    }
  }

  lemma AdvancedCursorIsBehind(pairing: Option<Pairing>, pairingId: nat, sent: int, answered: int)
    requires ReadFromCursor(pairing, pairingId, sent)
    ensures ReadFromCursor(AdvanceCursor(pairing, pairingId, sent, answered), pairingId, answered)
  {
  }

  lemma ClearedTwice(a: Table, b: Table, c: Table, first: set<nat>, n: nat, second: set<nat>, m: nat)
    requires Cleared(a, b, first, n) && Cleared(b, c, second, m)
    requires QueuedIds(c) <= QueuedIds(b) <= QueuedIds(a)
    ensures Cleared(a, c, first + second, n + m)
  {
    assert first !! second;
  }

  lemma NothingCleared(t: Table)
    ensures Cleared(t, t, {}, 0)
  {
  }

  /** What one rating answer leaves: its row settled, its anime's next row handed on after a delivery. */
  lemma RatingLeaves(before: Db, after: Db, rating: Operation, fate: Fate, claim: Claim, successors: seq<Operation>)
    requires WellFormed(after) && Later(before, after) && Carried([rating], before, claim) && Held(before.log, rating.id, claim)
    requires after.log == SettleRound(before.log, map[rating.id := fate], claim, after.now)
    requires successors == ChainRows(before.log, map[rating.id := fate], claim, after.now)
    ensures Round(before, after, true, claim, [rating], successors)
    ensures fate.Confirm? || fate.GiveUp? ==> Cleared(before.log, after.log, {rating.id}, 1)
  {
    hide SettleRound, ChainRows, Later, Handed;
    var fates := map[rating.id := fate];
    assert IdsOf([rating]) == fates.Keys by { assert [rating][0] == rating; }
    SettlementKeeps(before.log, fates, claim, after.now);
    HeldRowsAreCarried(successors, after, claim);
    SettlementLeavesRound(before, after, [rating], fates, claim, successors);
    if fate.GiveUp? && rating.id in after.log {
      SettledRow(before.log, fates, claim, after.now, rating.id);
    }
  }

  /** A rating whose row the claim lost meanwhile is not written. */
  lemma LostRatingLeaves(db: Db, rating: Operation, claim: Claim)
    requires claim.owner == Js && !Held(db.log, rating.id, claim)
    ensures Round(db, db, true, claim, [rating], [])
  {
    UndisturbedByNothing(db);
    EmptyRound(db, db, true, claim);
    RoundSkips(db, db, true, claim, [], [], rating);
    assert [] + [rating] == [rating];
  }

  // ----- Heals and resolutions -----

  lemma HealStep(before: Db, remote: seq<Listed>, at: int)
    ensures var timed := Timed(at, HealSnapshot(remote));
      && Next(before, timed) == before.(animes := HealAll(before.animes, remote, Unacked(before.log)).0, now := at)
      && (ValidStep(before, timed) <==> before.now <= at)
      && ConfirmedBy(before, timed.step) == {}
  {
    hide HealAll, Unacked;
  }

  lemma KeepLocalStep(before: Db, animeId: AnimeId, at: int)
    ensures var timed := Timed(at, KeepLocalEdits(animeId));
      && Next(before, timed)
         == (if KeyClaimed(before.log, animeId, LiveClaimFloor(at)) then before.(now := at)
             else before.(log := KeepLocal(before.log, GivenUpEdits(before.log, animeId)),
                          animes := ApplyToken(before.animes, animeId, None), now := at))
      && (ValidStep(before, timed) <==> before.now <= at)
      && ConfirmedBy(before, timed.step) == {}
  {
    hide KeepLocal, GivenUpEdits, ApplyToken;
  }

  lemma KeepBridgeStep(before: Db, animeId: AnimeId, onBridge: Option<Listed>, at: int)
    ensures var timed := Timed(at, KeepBridgeEdits(animeId, onBridge));
      && Next(before, timed)
         == (if KeyClaimed(before.log, animeId, LiveClaimFloor(at)) then before.(now := at)
             else before.(log := before.log - UnsyncedEdits(before.log, animeId),
                          animes := TakeBridgeRow(before.animes, animeId, onBridge), now := at))
      && (ValidStep(before, timed) <==> before.now <= at)
      && ConfirmedBy(before, timed.step) == {}
  {
    hide TakeBridgeRow, UnsyncedEdits;
  }

  lemma KeepRatingSteps(before: Db, animeId: AnimeId, seasons: set<Option<Json>>, at: int)
    ensures var keepLocal, keepBridge := Timed(at, KeepLocalRating(animeId, seasons)), Timed(at, KeepBridgeRating(animeId, seasons));
      var claimed := KeyClaimed(before.log, animeId, LiveClaimFloor(at));
      && Next(before, keepLocal)
         == before.(log := if claimed then before.log
                           else KeepLocal(before.log, RatingsOf(before.log, animeId, seasons, {DeadLetter})), now := at)
      && Next(before, keepBridge)
         == before.(log := if claimed then before.log
                           else before.log - RatingsOf(before.log, animeId, seasons, {Pending, Processing, DeadLetter}),
                    now := at)
      && (before.now <= at ==> ValidStep(before, keepLocal) && ValidStep(before, keepBridge))
      && ConfirmedBy(before, keepLocal.step) == {} && ConfirmedBy(before, keepBridge.step) == {}
  {
    hide KeepLocal, RatingsOf;
  }

  lemma DrainStep(before: Db, at: int)
    ensures var timed := Timed(at, Drain);
      var (merged, kept) := Pass(before.animes, before.staged, [], Unacked(before.log));
      && Next(before, timed) == before.(animes := merged, staged := kept, now := at)
      && (ValidStep(before, timed) <==> before.now <= at)
      && ConfirmedBy(before, timed.step) == {}
  {
    hide Pass, Unacked;
  }

  // ----- What a resolution leaves -----

  predicate IsEditOf(row: Row, animeId: AnimeId) { row.animeId == animeId && row.operation == "update" }

  predicate IsRatingOf(row: Row, animeId: AnimeId, seasons: set<Option<Json>>) {
    && row.animeId == animeId && row.operation == "season_rating"
    && (if "seasonId" in row.payload then Some(row.payload["seasonId"]) else None) in seasons
  }

  /** The rows of `ids` are queued again, as they were but for a fresh count and no reason; no other row is written. */
  ghost predicate RowsGoBack(t: Table, t': Table, ids: set<nat>) {
    && t'.Keys == t.Keys
    && forall id | id in t ::
         t'[id] == if id in ids then t[id].(status := Pending, reason := None, attempts := 0) else t[id]
  }

  /** The rows of `ids` are gone, and no other row is written. */
  ghost predicate RowsAreGone(t: Table, t': Table, ids: set<nat>) {
    t'.Keys == t.Keys - ids && forall id | id in t' :: t'[id] == t[id]
  }

  /** The anime has no token, if it is there; nothing else of it, and no other anime, is written. */
  ghost predicate TokenIsCleared(before: Animes, after: Animes, animeId: AnimeId) {
    && after.Keys == before.Keys
    && forall id | id in before :: after[id] == if id == animeId then before[id].(token := None) else before[id]
  }

  lemma KeepingLocalMeans(t: Table, animes: Animes, animeId: AnimeId, seasons: set<Option<Json>>)
    ensures RowsGoBack(t, KeepLocal(t, GivenUpEdits(t, animeId)), set id | id in t && IsEditOf(t[id], animeId)
                         && (t[id].status == DeadLetter || t[id].status == Status.ConflictExhausted))
    ensures RowsGoBack(t, KeepLocal(t, RatingsOf(t, animeId, seasons, {DeadLetter})), set id | id in t
                         && IsRatingOf(t[id], animeId, seasons) && t[id].status == DeadLetter)
    ensures TokenIsCleared(animes, ApplyToken(animes, animeId, None), animeId)
  {
  }

  lemma KeepingBridgeMeans(t: Table, animeId: AnimeId, seasons: set<Option<Json>>)
    ensures RowsAreGone(t, t - UnsyncedEdits(t, animeId), set id | id in t && IsEditOf(t[id], animeId) && t[id].status != Synced)
    ensures RowsAreGone(t, t - RatingsOf(t, animeId, seasons, {Pending, Processing, DeadLetter}), set id | id in t
                          && IsRatingOf(t[id], animeId, seasons)
                          && (t[id].status == Pending || t[id].status == Processing || t[id].status == DeadLetter))
  {
  }

  /** The anime reads as the bridge lists it, or is gone if it lists none; no other anime is written. */
  ghost predicate TakesBridgeRow(before: Animes, after: Animes, animeId: AnimeId, onBridge: Option<Listed>) {
    && (forall other: AnimeId | other != animeId :: LocalRow(after, other) == LocalRow(before, other))
    && (if onBridge.None? then LocalRow(after, animeId) == None
        else HealedRow(LocalRow(before, animeId), LocalRow(after, animeId), onBridge.value))
  }

  lemma TakingBridgeMeans(animes: Animes, animeId: AnimeId, onBridge: Option<Listed>)
    requires onBridge.Some? ==> onBridge.value.anime.id == animeId
    ensures TakesBridgeRow(animes, TakeBridgeRow(animes, animeId, onBridge), animeId, onBridge)
  {
    if onBridge.Some? {
      HealAnimeRefinesUpsert(animes, onBridge.value);
      forall other: AnimeId | other != animeId
        ensures LocalRow(TakeBridgeRow(animes, animeId, onBridge), other) == LocalRow(animes, other)
      {
        HealAnimeTouchesOnlyItsKey(animes, onBridge.value, LocalRow(animes, animeId), other);
      }
      hide HealAnime, HealedRow;
    }
  }

  // ----- What a gesture queues -----

  /** The columns of an edit read their new values; every other column, the guard, the token and every other row are as before. */
  ghost predicate EditIsWritten(before: Animes, after: Animes, animeId: AnimeId, columns: Columns)
    requires animeId in before
  {
    && after.Keys == before.Keys
    && (forall id | id in before && id != animeId :: after[id] == before[id])
    && after[animeId].guard == before[animeId].guard && after[animeId].token == before[animeId].token
    && forall column: Column ::
         Get(after[animeId].columns, column)
         == if column in columns then columns[column] else Get(before[animeId].columns, column)
  }

  /** One row more is in the table, and the others are as they were. */
  ghost predicate IsQueued(t: Table, t': Table, id: nat, row: Row) {
    && id !in t && t'.Keys == t.Keys + {id} && t'[id] == row
    && forall other | other in t :: t'[other] == t[other]
  }

  lemma EditingMeans(animes: Animes, animeId: AnimeId, columns: Columns)
    requires animeId in animes
    ensures EditIsWritten(animes, EditRow(animes, animeId, columns), animeId, columns)
  {
  }

  lemma QueueingMeans(t: Table, id: nat, animeId: AnimeId, operation: string, payload: Payload, createdAt: int)
    requires id !in t
    ensures IsQueued(t, t[id := FreshRow(animeId, operation, payload, createdAt)], id,
                     Row(animeId, operation, payload, Pending, createdAt, 0, None, None))
  {
  }

  lemma EditStep(before: Db, animeId: AnimeId, columns: Columns, payload: Payload, createdAt: int, at: int)
    requires columns.Keys <= LOCAL_EDIT_COLUMNS
    ensures var timed := Timed(at, LocalEdit(animeId, columns, payload, createdAt));
      && Next(before, timed)
         == (if animeId !in before.animes then before.(now := at)
             else before.(log := before.log[before.nextId := FreshRow(animeId, ANIME_UPDATE_OPERATION, payload, createdAt)],
                          nextId := before.nextId + 1,
                          animes := EditRow(before.animes, animeId, columns), now := at))
      && (ValidStep(before, timed) <==> before.now <= at)
      && ConfirmedBy(before, timed.step) == {}
  {
  }

  lemma RatingStep(before: Db, animeId: AnimeId, payload: Payload, createdAt: int, at: int)
    ensures var timed := Timed(at, QueueRating(animeId, payload, createdAt));
      && Next(before, timed)
         == before.(log := before.log[before.nextId := FreshRow(animeId, SEASON_RATING_OPERATION, payload, createdAt)],
                    nextId := before.nextId + 1, now := at)
      && (ValidStep(before, timed) <==> before.now <= at)
      && ConfirmedBy(before, timed.step) == {}
  {
  }
}
