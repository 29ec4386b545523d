/** What one runtime may rely on while the other acts, and what its own transactions leave under its claim. */
module CycleRelations {
  import opened Basics
  import opened OutboxTable
  import opened Protocol
  import opened OutboxSafety
  import opened OutboxHistory
  import opened ReconcileAnswer

  /** What moves one way under every step: time, issued ids, what a row says, and the cursor of a pairing. */
  ghost predicate Later(before: Db, after: Db) {
    && before.now <= after.now
    && before.nextId <= after.nextId
    && (forall id | id in after.log && id < before.nextId :: id in before.log && SameIntent(before.log[id], after.log[id]))
    && (after.pairing.Some? ==>
          before.pairing.Some? && before.pairing.value.id == after.pairing.value.id
          && before.pairing.value.cursor <= after.pairing.value.cursor)
  }

  lemma LaterMeansLater(before: Db, after: Db)
    requires Later(before, after)
    ensures before.now <= after.now
  {
  }

  lemma StepIsLater(db: Db, timed: Timed)
    requires WellFormed(db) && ValidStep(db, timed)
    ensures Later(db, Next(db, timed))
  {
    NextParts(db, timed);
    forall id | id in Next(db, timed).log && id < db.nextId
      ensures id in db.log && SameIntent(db.log[id], Next(db, timed).log[id])
    {
      if id in db.log {
        StepConserves(db, timed, id);
      } else {
        NewRowsArePending(db, timed, id);
      }
    }
    PairingMovesForward(db, timed);
  }

  lemma PairingMovesForward(db: Db, timed: Timed)
    ensures var after := Next(db, timed).pairing;
      after.Some? ==>
        db.pairing.Some? && db.pairing.value.id == after.value.id && db.pairing.value.cursor <= after.value.cursor
  {
  }

  /** The steps of the native runtime and of the screens: none of them is under a claim of this runtime. */
  predicate Foreign(step: Step) {
    match step
    case ClaimBatch(owner, _) => owner == Native
    case FetchMissing(claim, _, _) => claim.owner == Native
    case SettleReconcile(claim, _, _, _, _, _, _, _) => claim.owner == Native
    case SettleRows(claim, _) => claim.owner == Native
    case _ => true
  }

  /** Between two moments of the run nothing was done under a claim of this runtime. */
  ghost predicate OnlyOthers(history: seq<Timed>, from: nat, to: nat) {
    from <= to <= |history| && forall k | from <= k < to :: Foreign(history[k].step)
  }

  lemma OthersLonger(history: seq<Timed>, longer: seq<Timed>, from: nat, middle: nat, to: nat)
    requires history <= longer && OnlyOthers(history, from, middle) && OnlyOthers(longer, middle, to)
    ensures OnlyOthers(longer, from, to)
  {
  }

  /** What `t'` holds under the claim: rows of `handed`, and rows it held in `t`, unwritten, other than `ids`. */
  ghost predicate Handed(t: Table, t': Table, claim: Claim, ids: set<nat>, handed: set<nat>) {
    forall id | Held(t', id, claim) :: id in handed || (id !in ids && Held(t, id, claim) && t'[id] == t[id])
  }

  lemma HandedTwice(t0: Table, t1: Table, t2: Table, claim: Claim, ids: set<nat>, more: set<nat>, first: set<nat>, second: set<nat>)
    requires Handed(t0, t1, claim, ids, first) && Handed(t1, t2, claim, more, second)
    ensures Handed(t0, t2, claim, ids + more, (first - more) + second)
  {
  }

  /** A row right after its answer is written. */
  function Answered(t: Table, fates: map<nat, Fate>, claim: Claim, id: nat): Row
    requires id in t
  {
    if id in fates && Held(t, id, claim) then ApplyFate(t[id], fates[id]) else t[id]
  }

  /** The rows a settlement would chain to: the next ones of the keys it confirms. */
  function NextRows(t: Table, fates: map<nat, Fate>, claim: Claim): set<nat> {
    SuccessorIds(Resolved(t, fates, claim), AnimesOf(t, ConfirmedIds(t, fates, claim)))
  }

  /** A row a settlement leaves: answered, and claimed again only as a successor. */
  lemma SettledRow(t: Table, fates: map<nat, Fate>, claim: Claim, now: int, id: nat)
    requires id in SettleRound(t, fates, claim, now)
    ensures id in t
    ensures var left := SettleRound(t, fates, claim, now)[id];
      left == Answered(t, fates, claim, id)
      || (id in NextRows(t, fates, claim) && Answered(t, fates, claim, id).status == Pending && left.claim == Some(claim))
  {
    var resolved := Resolved(t, fates, claim);
    SuccessorsAreClaimed(resolved, AnimesOf(t, ConfirmedIds(t, fates, claim)), claim);
    assert id in resolved;
    assert id in Settle(t, fates, claim);
    ResolvedAt(t, fates, claim, id);
  }

  /** A settlement keeps under its claim only rows it did not answer, and the successors it claims. */
  lemma SettlementHands(t: Table, fates: map<nat, Fate>, claim: Claim, now: int)
    ensures Handed(t, SettleRound(t, fates, claim, now), claim, fates.Keys, NextRows(t, fates, claim))
  {
    var t' := SettleRound(t, fates, claim, now);
    forall id | Held(t', id, claim) && id !in NextRows(t, fates, claim)
      ensures id !in fates && Held(t, id, claim) && t'[id] == t[id]
    {
      SettledRow(t, fates, claim, now, id);
    }
  }

  /** A settlement queues nothing, and what it confirms leaves the queue for good. */
  lemma SettlementShrinksQueue(t: Table, fates: map<nat, Fate>, claim: Claim, now: int)
    ensures QueuedIds(SettleRound(t, fates, claim, now)) <= QueuedIds(t) - ConfirmedIds(t, fates, claim)
  {
    var t' := SettleRound(t, fates, claim, now);
    forall id | id in QueuedIds(t') ensures id in QueuedIds(t) - ConfirmedIds(t, fates, claim) {
      SettledRow(t, fates, claim, now, id);
    }
  }

  lemma FetchFirstShrinksQueue(t: Table, ids: set<nat>, outcomes: map<AnimeId, TokenOutcome>, claim: Claim)
    ensures QueuedIds(FetchFirst(t, ids, outcomes, claim)) <= QueuedIds(t)
    ensures SyncedIds(FetchFirst(t, ids, outcomes, claim)) == SyncedIds(t)
  {
  }

  lemma ClaimKeepsQueue(t: Table, ids: set<nat>, claim: Claim, floor: int)
    ensures QueuedIds(ClaimRows(t, ids, claim, floor)) == QueuedIds(t)
  {
  }

  lemma ForeignSettlementHands(t: Table, fates: map<nat, Fate>, theirs: Claim, claim: Claim, now: int)
    requires theirs != claim
    ensures Handed(t, SettleRound(t, fates, theirs, now), claim, {}, {})
  {
    var t' := SettleRound(t, fates, theirs, now);
    forall id | Held(t', id, claim) ensures Held(t, id, claim) && t'[id] == t[id] {
      SettledRow(t, fates, theirs, now, id);
    }
  }

  /** Whatever the others do, a row held under this claim afterwards was held before, and says the same. */
  lemma ForeignStepHands(db: Db, timed: Timed, claim: Claim)
    requires WellFormed(db) && ValidStep(db, timed) && Foreign(timed.step) && claim.owner == Js
    ensures Handed(db.log, Next(db, timed).log, claim, {}, {})
  {
    NextParts(db, timed);
    match timed.step
    case SettleReconcile(theirs, fates, _, _, _, _, _, _) => ForeignSettlementHands(db.log, fates, theirs, claim, timed.at);
    case SettleRows(theirs, fates) => ForeignSettlementHands(db.log, fates, theirs, claim, timed.at);
    case LocalEdit(_, _, _, _) => EnqueueHands(db, timed, claim);
    case QueueRating(_, _, _) => EnqueueHands(db, timed, claim);
    case ClaimBatch(_, _) => BatchHands(db.log, timed.step.owner, timed.step.limit, timed.at, claim);
    case FetchMissing(theirs, ids, outcomes) => FetchHands(db.log, ids, outcomes, theirs, claim);
    case _ => ResolutionHands(db, timed, claim);
  }

  lemma BatchHands(t: Table, owner: Owner, limit: nat, at: int, claim: Claim)
    requires owner != claim.owner
    ensures var ids := set id | id in Backlog(t, LiveClaimFloor(at), limit);
      Handed(t, ClaimRows(t, ids, Claim(owner, at), LiveClaimFloor(at)), claim, {}, {})
  {
  }

  lemma FetchHands(t: Table, ids: set<nat>, outcomes: map<AnimeId, TokenOutcome>, theirs: Claim, claim: Claim)
    ensures Handed(t, FetchFirst(t, ids, outcomes, theirs), claim, {}, {})
  {
  }

  lemma ResolutionHands(db: Db, timed: Timed, claim: Claim)
    requires WellFormed(db)
    requires ResolvesKey(timed.step) || timed.step.Unpair? || timed.step.Drain? || timed.step.StageThenAdvance?
      || timed.step.HealSnapshot?
    ensures Handed(db.log, NextLog(db, timed.at, timed.step), claim, {}, {})
  {
  }

  lemma EnqueueHands(db: Db, timed: Timed, claim: Claim)
    requires WellFormed(db) && (timed.step.LocalEdit? || timed.step.QueueRating?)
    ensures Handed(db.log, NextLog(db, timed.at, timed.step), claim, {}, {})
  {
    assert db.nextId !in db.log;
  }

  /** What others leave: nothing moved back, and no row under a claim of this runtime was written. */
  ghost predicate Undisturbed(before: Db, after: Db) {
    Later(before, after) && forall claim: Claim | claim.owner == Js :: Handed(before.log, after.log, claim, {}, {})
  }

  lemma UndisturbedByNothing(db: Db)
    ensures Undisturbed(db, db)
  {
  }

  lemma LaterTwice(a: Db, b: Db, c: Db)
    requires Later(a, b) && Later(b, c)
    ensures Later(a, c)
  {
  }

  lemma UndisturbedTwice(a: Db, b: Db, c: Db)
    requires Undisturbed(a, b) && Undisturbed(b, c)
    ensures Undisturbed(a, c)
  {
    LaterTwice(a, b, c);
    forall claim: Claim | claim.owner == Js ensures Handed(a.log, c.log, claim, {}, {}) {
      HandedTwice(a.log, b.log, c.log, claim, {}, {}, {}, {});
    }
  }

  lemma ForeignStepUndisturbs(db: Db, timed: Timed)
    requires WellFormed(db) && ValidStep(db, timed) && Foreign(timed.step)
    ensures Undisturbed(db, Next(db, timed))
  {
    StepIsLater(db, timed);
    forall claim: Claim | claim.owner == Js ensures Handed(db.log, Next(db, timed).log, claim, {}, {}) {
      ForeignStepHands(db, timed, claim);
    }
  }

  // ----- The rows a round carries -----

  /** A row read earlier: its id was issued, and if it is still there it says what was read. */
  ghost predicate Known(operation: Operation, db: Db) {
    operation.id < db.nextId && (operation.id in db.log ==> SameIntent(operation.row, db.log[operation.id]))
  }

  /** While the claim still holds the row, it is exactly what was read. */
  ghost predicate Current(operation: Operation, t: Table, claim: Claim) {
    Held(t, operation.id, claim) ==> t[operation.id] == operation.row
  }

  ghost predicate Carried(operations: seq<Operation>, db: Db, claim: Claim) {
    && AnimesDiffer(operations)
    && forall i | 0 <= i < |operations| :: Known(operations[i], db) && Current(operations[i], db.log, claim)
  }

  /** Rows stay carried through what others do, and through rounds that touch only rows of other animes. */
  lemma CarriedLater(operations: seq<Operation>, before: Db, after: Db, claim: Claim, ids: set<nat>,
                     handed: seq<Operation>)
    requires Carried(operations, before, claim) && Later(before, after)
    requires Handed(before.log, after.log, claim, ids, IdsOf(handed))
    requires forall i | 0 <= i < |handed| :: Known(handed[i], after)
    requires AnimeIdsOf(operations) !! AnimeIdsOf(handed)
    ensures Carried(operations, after, claim)
  {
    forall i | 0 <= i < |operations| ensures Known(operations[i], after) && Current(operations[i], after.log, claim) {
      var operation := operations[i];
      assert Known(operation, before) && Current(operation, before.log, claim);
      if operation.id in after.log {
        OtherAnimesHaveOtherRows(operations, i, handed, after);
      }
    }
  }

  lemma OtherAnimesHaveOtherRows(operations: seq<Operation>, i: nat, handed: seq<Operation>, db: Db)
    requires i < |operations| && operations[i].id in db.log
    requires db.log[operations[i].id].animeId == operations[i].row.animeId
    requires forall j | 0 <= j < |handed| :: Known(handed[j], db)
    requires AnimeIdsOf(operations) !! AnimeIdsOf(handed)
    ensures operations[i].id !in IdsOf(handed)
  {
    assert operations[i].row.animeId in AnimeIdsOf(operations);
    forall j | 0 <= j < |handed| ensures handed[j].id != operations[i].id {
      assert handed[j].row.animeId in AnimeIdsOf(handed);
    }
  }

  lemma CarriedJoin(a: seq<Operation>, b: seq<Operation>, db: Db, claim: Claim)
    requires Carried(a, db, claim) && Carried(b, db, claim)
    requires AnimeIdsOf(a) !! AnimeIdsOf(b)
    ensures Carried(a + b, db, claim)
  {
    forall i, j | 0 <= i < j < |a + b| ensures (a + b)[i].row.animeId != (a + b)[j].row.animeId {
      if i < |a| <= j {
        assert a[i].row.animeId in AnimeIdsOf(a) && b[j - |a|].row.animeId in AnimeIdsOf(b);
      }
    }
  }

  /** Rows that are there have one id per anime too. */
  lemma StoredAreDistinct(operations: seq<Operation>, db: Db, claim: Claim)
    requires Carried(operations, db, claim)
    requires forall i | 0 <= i < |operations| :: operations[i].id in db.log
    ensures OnePerAnime(operations)
  {
    forall i, j | 0 <= i < j < |operations| ensures operations[i].id != operations[j].id {
      assert Known(operations[i], db) && Known(operations[j], db);
    }
  }

  // ----- One round -----

  /**
   * What a round over `operations` leaves: nothing of it held any more but the successors it hands on, one for a key
   * of the round at most; and, with nobody else acting, a queue that only shrank, by a row at least if any is handed on.
   */
  ghost predicate Round(before: Db, after: Db, quiet: bool, claim: Claim, operations: seq<Operation>,
                        successors: seq<Operation>)
  {
    && Later(before, after)
    && Handed(before.log, after.log, claim, IdsOf(operations), IdsOf(successors))
    && Carried(successors, after, claim)
    && AnimeIdsOf(successors) <= AnimeIdsOf(operations)
    && (quiet ==> QueuedIds(after.log) <= QueuedIds(before.log))
    && (quiet && successors != [] ==> QueuedIds(after.log) < QueuedIds(before.log))
  }

  lemma EmptyRound(before: Db, after: Db, quiet: bool, claim: Claim)
    requires Undisturbed(before, after) && claim.owner == Js && (quiet ==> before == after)
    ensures Round(before, after, quiet, claim, [], [])
  {
  }

  lemma IdsJoin(a: seq<Operation>, b: seq<Operation>)
    ensures IdsOf(a + b) == IdsOf(a) + IdsOf(b)
    ensures AnimeIdsOf(a + b) == AnimeIdsOf(a) + AnimeIdsOf(b)
  {
    assert forall i | 0 <= i < |a| :: (a + b)[i] == a[i];
    forall j | 0 <= j < |b| ensures b[j].id in IdsOf(a + b) && b[j].row.animeId in AnimeIdsOf(a + b) {
      assert (a + b)[|a| + j] == b[j];
    }
  }

  /** Two rounds over different animes make one round over both. */
  lemma RoundThen(a: Db, b: Db, c: Db, quiet: bool, still: bool, claim: Claim, first: seq<Operation>,
                  handed: seq<Operation>, second: seq<Operation>, successors: seq<Operation>)
    requires Round(a, b, quiet, claim, first, handed) && Round(b, c, still, claim, second, successors)
    requires AnimeIdsOf(first) !! AnimeIdsOf(second)
    ensures Round(a, c, quiet && still, claim, first + second, handed + successors)
  {
    IdsJoin(first, second);
    IdsJoin(handed, successors);
    LaterTwice(a, b, c);
    HandedTwice(a.log, b.log, c.log, claim, IdsOf(first), IdsOf(second), IdsOf(handed), IdsOf(successors));
    assert AnimeIdsOf(handed) !! AnimeIdsOf(successors);
    CarriedLater(handed, b, c, claim, IdsOf(second), successors);
    CarriedJoin(handed, successors, c, claim);
  }

  /** The cursor a request was sent on stays at or behind the stored one. */
  lemma CursorStaysBehind(before: Db, after: Db, pairingId: nat, sent: int)
    requires Later(before, after) && ReadFromCursor(before.pairing, pairingId, sent)
    ensures ReadFromCursor(after.pairing, pairingId, sent)
  {
  }

  /** A round over the rows still sendable of a round is a round over all of it. */
  lemma RoundOfPending(a: Db, b: Db, c: Db, quiet: bool, still: bool, claim: Claim, claimed: seq<Operation>,
                       pending: seq<Operation>, successors: seq<Operation>)
    requires Later(a, b) && Handed(a.log, b.log, claim, {}, {})
    requires quiet ==> QueuedIds(b.log) <= QueuedIds(a.log)
    requires Round(b, c, still, claim, pending, successors)
    requires forall operation | operation in pending :: operation in claimed
    requires forall operation | operation in claimed && Held(b.log, operation.id, claim) :: operation in pending
    ensures Round(a, c, quiet && still, claim, claimed, successors)
  {
    LaterTwice(a, b, c);
    forall id | Held(c.log, id, claim) && id !in IdsOf(successors)
      ensures id !in IdsOf(claimed) && Held(a.log, id, claim) && c.log[id] == a.log[id]
    {
      assert id !in IdsOf(pending) && Held(b.log, id, claim);
      assert forall i | 0 <= i < |claimed| && claimed[i].id == id :: claimed[i] in pending;
    }
    forall animeId | animeId in AnimeIdsOf(pending) ensures animeId in AnimeIdsOf(claimed) {
      var i :| 0 <= i < |pending| && pending[i].row.animeId == animeId;
      assert pending[i] in claimed;
    }
  }

  /** A row nobody holds any more is done with. */
  lemma RoundSkips(a: Db, b: Db, quiet: bool, claim: Claim, operations: seq<Operation>, handed: seq<Operation>,
                   operation: Operation)
    requires Round(a, b, quiet, claim, operations, handed) && !Held(b.log, operation.id, claim)
    ensures Round(a, b, quiet, claim, operations + [operation], handed)
  {
    IdsJoin(operations, [operation]);
  }

  /** Releasing the rest of a round, and all it handed on, leaves nothing of it held. */
  lemma RoundReleased(a: Db, b: Db, c: Db, quiet: bool, still: bool, claim: Claim, operations: seq<Operation>,
                      handed: seq<Operation>, rest: seq<Operation>)
    requires Round(a, b, quiet, claim, operations, handed)
    requires Later(b, c) && Handed(b.log, c.log, claim, IdsOf(rest) + IdsOf(handed), {})
    requires still ==> QueuedIds(c.log) <= QueuedIds(b.log)
    ensures Round(a, c, quiet && still, claim, operations + rest, [])
  {
    IdsJoin(operations, rest);
    LaterTwice(a, b, c);
    HandedTwice(a.log, b.log, c.log, claim, IdsOf(operations), IdsOf(rest) + IdsOf(handed), IdsOf(handed), {});
    assert IdsOf([]) == {};
  }

  /** A round goes on through what others do. */
  lemma RoundWaits(a: Db, b: Db, c: Db, quiet: bool, still: bool, claim: Claim, operations: seq<Operation>,
                   handed: seq<Operation>)
    requires Round(a, b, quiet, claim, operations, handed) && claim.owner == Js
    requires Undisturbed(b, c) && (still ==> b == c)
    ensures Round(a, c, quiet && still, claim, operations, handed)
  {
    EmptyRound(b, c, still, claim);
    RoundThen(a, b, c, quiet, still, claim, operations, handed, [], []);
    assert operations + [] == operations && handed + [] == handed;
  }

  /** The rows not sent yet stay carried through a round over another anime. */
  lemma CarriedPast(rest: seq<Operation>, before: Db, after: Db, quiet: bool, claim: Claim, operations: seq<Operation>,
                    successors: seq<Operation>)
    requires Carried(rest, before, claim) && Round(before, after, quiet, claim, operations, successors)
    requires AnimeIdsOf(rest) !! AnimeIdsOf(operations)
    ensures Carried(rest, after, claim)
  {
    CarriedLater(rest, before, after, claim, IdsOf(operations), successors);
  }
}
