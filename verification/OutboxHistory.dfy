/** What becomes of each outbox row over a run: conservation, single confirmation, bounded conflicts. */
module OutboxHistory {
  import opened Basics
  import opened OutboxTable
  import opened Protocol
  import opened OutboxSafety

  /** The row is of the same key as one whose confirmation carries the key past it. */
  predicate SameKey(done: Row, row: Row) {
    && done.animeId == row.animeId
    && if done.operation == SEASON_RATING_OPERATION
       then row.operation == SEASON_RATING_OPERATION && StrictlyEqual(SeasonOf(row.payload), SeasonOf(done.payload))
       else row.operation == ANIME_UPDATE_OPERATION
  }

  /** What never changes in a row: who it is about, what it says and when it was queued. */
  predicate SameIntent(a: Row, b: Row) {
    a.animeId == b.animeId && a.operation == b.operation && a.payload == b.payload && a.createdAt == b.createdAt
  }

  predicate Chosen(step: Step) { step.Unpair? || step.KeepBridgeEdits? || step.KeepBridgeRating? }

  /** The rows a step confirms. */
  function ConfirmedBy(db: Db, step: Step): set<nat> {
    if step.SettleReconcile? || step.SettleRows? then ConfirmedIds(db.log, step.fates, step.claim) else {}
  }

  function SyncedIds(t: Table): set<nat> { set id | id in t && t[id].status == Synced }

  /** What a settlement leaves in a row: its fate, and at most a chained claim on top of `pending`. */
  lemma SettleRoundAt(t: Table, fates: map<nat, Fate>, claim: Claim, now: int)
    ensures var resolved := Resolved(t, fates, claim);
      var t' := SettleRound(t, fates, claim, now);
      && t'.Keys == resolved.Keys
      && forall id | id in resolved ::
           t'[id] == resolved[id]
           || (resolved[id].status == Pending && t'[id] == resolved[id].(status := Processing, claim := Some(claim)))
  {
    var resolved := Resolved(t, fates, claim);
    SuccessorsAreClaimed(resolved, AnimesOf(t, ConfirmedIds(t, fates, claim)), claim);
  }

  lemma ResolvedAt(t: Table, fates: map<nat, Fate>, claim: Claim, id: nat)
    requires id in t
    ensures var resolved := Resolved(t, fates, claim);
      && (id in resolved ==>
            resolved[id] == if id in fates && Held(t, id, claim) then ApplyFate(t[id], fates[id]) else t[id])
      && (t[id].status == Synced || id in ConfirmedIds(t, fates, claim) ==> id in resolved)
      && (id !in resolved ==> exists done | done in ConfirmedIds(t, fates, claim) :: id < done && SameKey(t[done], t[id]))
  {
    var settled := Settle(t, fates, claim);
    var confirmed := ConfirmedIds(t, fates, claim);
    if id in SupersededIds(settled, confirmed) {
      var done :| done in confirmed && done in settled && Supersedes(settled, done, id);
      assert SameKey(t[done], t[id]);
      assert GivenUp(settled[id]);
    }
  }

  lemma SettleRoundRows(t: Table, fates: map<nat, Fate>, claim: Claim, now: int, id: nat)
    requires id in t
    ensures var t' := SettleRound(t, fates, claim, now);
      && (id in t' ==> SameIntent(t[id], t'[id]))
      && (id in t' && t'[id].status == Synced <==> t[id].status == Synced || id in ConfirmedIds(t, fates, claim))
      && (t[id].status == Synced ==> id in t' && t'[id] == t[id])
      && (id !in t' ==> exists done | done in ConfirmedIds(t, fates, claim) :: id < done && SameKey(t[done], t[id]))
      && var answered := if id in fates && Held(t, id, claim) then ApplyFate(t[id], fates[id]) else t[id];
         id in t' ==> t'[id].attempts == answered.attempts
  {
    SettleRoundAt(t, fates, claim, now);
    ResolvedAt(t, fates, claim, id);
  }

  predicate Settles(step: Step) { step.SettleReconcile? || step.SettleRows? }

  /** What a step that settles nothing leaves of one row. */
  ghost predicate KeepsRow(t: Table, t': Table, id: nat, chosen: bool)
    requires id in t
  {
    && (id in t' ==> SameIntent(t[id], t'[id]) && (t'[id].status == Synced ==> t[id].status == Synced))
    && (t[id].status == Synced ==> id in t' && t'[id] == t[id])
    && (id !in t' ==> chosen)
  }

  predicate ResolvesKey(step: Step) {
    step.KeepLocalEdits? || step.KeepLocalRating? || step.KeepBridgeEdits? || step.KeepBridgeRating?
  }

  lemma ResolutionsKeepRows(db: Db, timed: Timed, id: nat)
    requires WellFormed(db) && id in db.log && ResolvesKey(timed.step)
    ensures KeepsRow(db.log, NextLog(db, timed.at, timed.step), id, Chosen(timed.step))
  {
  }

  lemma QueueStepsKeepRows(db: Db, timed: Timed, id: nat)
    requires WellFormed(db) && id in db.log
    requires !Settles(timed.step) && !timed.step.Unpair? && !ResolvesKey(timed.step) && !timed.step.ClaimBatch?
    ensures KeepsRow(db.log, NextLog(db, timed.at, timed.step), id, false)
  {
  }

  lemma ClaimsKeepRows(t: Table, ids: set<nat>, claim: Claim, floor: int, id: nat)
    requires id in t
    ensures KeepsRow(t, ClaimRows(t, ids, claim, floor), id, false)
  {
  }

  lemma OtherStepsKeepRows(db: Db, timed: Timed, id: nat)
    requires WellFormed(db) && id in db.log && !Settles(timed.step) && !timed.step.Unpair?
    ensures KeepsRow(db.log, NextLog(db, timed.at, timed.step), id, Chosen(timed.step))
  {
    if ResolvesKey(timed.step) {
      ResolutionsKeepRows(db, timed, id);
    } else if timed.step.ClaimBatch? {
      var floor := LiveClaimFloor(timed.at);
      var ids := set row | row in Backlog(db.log, floor, timed.step.limit);
      ClaimsKeepRows(db.log, ids, Claim(timed.step.owner, timed.at), floor, id);
    } else {
      QueueStepsKeepRows(db, timed, id);
    }
  }

  /** One step: an intent stays as queued, a synced row stays as synced, and only a later row of its key removes one. */
  lemma StepConserves(db: Db, timed: Timed, id: nat)
    requires WellFormed(db) && ValidStep(db, timed) && id in db.log
    ensures var t' := Next(db, timed).log;
      && (id in t' ==> SameIntent(db.log[id], t'[id]))
      && (!timed.step.Unpair? ==>
            && (id in t' && t'[id].status == Synced <==> db.log[id].status == Synced || id in ConfirmedBy(db, timed.step))
            && (db.log[id].status == Synced ==> id in t' && t'[id] == db.log[id]))
      && (id !in t' && !Chosen(timed.step) ==>
            exists done | done in ConfirmedBy(db, timed.step) :: id < done && SameKey(db.log[done], db.log[id]))
  {
    NextParts(db, timed);
    if Settles(timed.step) {
      SettleRoundRows(db.log, timed.step.fates, timed.step.claim, timed.at, id);
      assert Next(db, timed).log == SettleRound(db.log, timed.step.fates, timed.step.claim, timed.at);
    } else if !timed.step.Unpair? {
      OtherStepsKeepRows(db, timed, id);
    }
  }

  ghost predicate NoneChosen(steps: seq<Timed>) { forall k | 0 <= k < |steps| :: !Chosen(steps[k].step) }

  ghost predicate NeverUnpaired(steps: seq<Timed>) { forall k | 0 <= k < |steps| :: !steps[k].step.Unpair? }

  /**
   * Conservation: with no unpairing and no chosen keep-bridge, a queued intent is there for ever, unchanged, or a
   * later row of its key was confirmed and stays synced.
   */
  lemma {:induction false} IntentsAreConserved(db: Db, steps: seq<Timed>, id: nat)
    requires WellFormed(db) && Exclusive(db.log, db.now) && ValidRun(db, steps) && NoneChosen(steps)
    requires id in db.log
    ensures var end := Run(db, steps).log;
      if id in end then SameIntent(db.log[id], end[id])
      else exists done | done in end :: id < done && end[done].status == Synced && SameKey(end[done], db.log[id])
  {
    if steps != [] {
      var before := steps[..|steps| - 1];
      var last := steps[|steps| - 1];
      ValidPrefix(db, steps);
      IntentsAreConserved(db, before, id);
      ClaimsStayExclusive(db, before);
      var db' := Run(db, before);
      var end := Run(db, steps).log;
      if id in db'.log {
        StepConserves(db', last, id);
        if id !in end {
          var done :| done in ConfirmedBy(db', last.step) && id < done && SameKey(db'.log[done], db'.log[id]);
          StepConserves(db', last, done);
          assert end[done].status == Synced && SameKey(end[done], db.log[id]);
        }
      } else {
        var done :| done in db'.log && id < done && db'.log[done].status == Synced && SameKey(db'.log[done], db.log[id]);
        StepConserves(db', last, done);
      }
    }
  }

  /** A synced row is never written again, not even by a holder that settles late. */
  lemma {:induction false} SyncedRowsAreFinal(db: Db, steps: seq<Timed>, id: nat)
    requires WellFormed(db) && Exclusive(db.log, db.now) && ValidRun(db, steps) && NeverUnpaired(steps)
    requires id in db.log && db.log[id].status == Synced
    ensures id in Run(db, steps).log && Run(db, steps).log[id] == db.log[id]
  {
    if steps != [] {
      ValidPrefix(db, steps);
      SyncedRowsAreFinal(db, steps[..|steps| - 1], id);
      ClaimsStayExclusive(db, steps[..|steps| - 1]);
      StepConserves(Run(db, steps[..|steps| - 1]), steps[|steps| - 1], id);
    }
  }

  /** How many confirmations both runtimes count over a run. */
  function Confirmations(db: Db, steps: seq<Timed>): nat {
    if steps == [] then 0
    else
      var before := steps[..|steps| - 1];
      Confirmations(db, before) + |ConfirmedBy(Run(db, before), steps[|steps| - 1].step)|
  }

  lemma StepCountsNewlySynced(db: Db, timed: Timed)
    requires WellFormed(db) && ValidStep(db, timed) && !timed.step.Unpair?
    ensures |SyncedIds(Next(db, timed).log)| == |SyncedIds(db.log)| + |ConfirmedBy(db, timed.step)|
  {
    var t' := Next(db, timed).log;
    var confirmed := ConfirmedBy(db, timed.step);
    NextParts(db, timed);
    forall id ensures id in SyncedIds(t') <==> id in SyncedIds(db.log) + confirmed {
      if id in db.log {
        StepConserves(db, timed, id);
      } else if id in t' {
        NewRowsArePending(db, timed, id);
      }
    }
    assert SyncedIds(t') == SyncedIds(db.log) + confirmed;
    assert SyncedIds(db.log) !! confirmed;
  }

  lemma NewRowsArePending(db: Db, timed: Timed, id: nat)
    requires id !in db.log && id in Next(db, timed).log
    ensures Enqueues(db, timed.step) && id == db.nextId && Next(db, timed).log[id] == Enqueued(timed.step)
  {
    NextParts(db, timed);
    match timed.step
    case SettleReconcile(claim, fates, _, _, _, _, _, _) => ResolvedIsCalmer(db.log, fates, claim);
    case SettleRows(claim, fates) => ResolvedIsCalmer(db.log, fates, claim);
    case _ =>
  }

  /** Each row is counted as confirmed exactly once: the counts add up to the rows that became synced. */
  lemma {:induction false} EachRowIsConfirmedOnce(db: Db, steps: seq<Timed>)
    requires WellFormed(db) && Exclusive(db.log, db.now) && ValidRun(db, steps) && NeverUnpaired(steps)
    ensures |SyncedIds(Run(db, steps).log)| == |SyncedIds(db.log)| + Confirmations(db, steps)
  {
    if steps != [] {
      ValidPrefix(db, steps);
      EachRowIsConfirmedOnce(db, steps[..|steps| - 1]);
      ClaimsStayExclusive(db, steps[..|steps| - 1]);
      StepCountsNewlySynced(Run(db, steps[..|steps| - 1]), steps[|steps| - 1]);
    }
  }

  // ----- Conflicts -----

  /** A queued row has spent fewer attempts than the cap. */
  ghost predicate AttemptsBelowCap(t: Table) {
    forall id | id in t ::
      t[id].attempts <= CONFLICT_ATTEMPT_CAP && (Queued(t[id]) ==> t[id].attempts < CONFLICT_ATTEMPT_CAP)
  }

  /** The step answers the row, held, with a conflict. */
  predicate ConflictAnswer(db: Db, step: Step, id: nat) {
    && (step.SettleReconcile? || step.SettleRows?)
    && id in step.fates && Held(db.log, id, step.claim) && step.fates[id].Conflict?
  }

  predicate AdvancingAnswer(db: Db, step: Step, id: nat) {
    ConflictAnswer(db, step, id) && step.fates[id].advanced
  }

  /** The step is a keep-local that revives the row with a fresh count. */
  predicate Revives(db: Db, timed: Timed, id: nat) {
    && (timed.step.KeepLocalEdits? || timed.step.KeepLocalRating?)
    && !KeyClaimed(db.log, timed.step.animeId, LiveClaimFloor(timed.at))
    && id in if timed.step.KeepLocalEdits? then GivenUpEdits(db.log, timed.step.animeId)
             else RatingsOf(db.log, timed.step.animeId, timed.step.seasons, {DeadLetter})
  }

  function One(b: bool): nat { if b then 1 else 0 }

  function ConflictAnswers(db: Db, steps: seq<Timed>, id: nat): nat {
    if steps == [] then 0
    else
      var before := steps[..|steps| - 1];
      ConflictAnswers(db, before, id) + One(ConflictAnswer(Run(db, before), steps[|steps| - 1].step, id))
  }

  /** The answers that bring new information: an advanced token, or the user's own keep-local. */
  function FreshStarts(db: Db, steps: seq<Timed>, id: nat): nat {
    if steps == [] then 0
    else
      var before := steps[..|steps| - 1];
      var last := steps[|steps| - 1];
      FreshStarts(db, before, id)
      + One(AdvancingAnswer(Run(db, before), last.step, id)) + One(Revives(Run(db, before), last, id))
  }

  /** A row no longer stored has no attempt left. */
  function Spent(t: Table, id: nat): nat { if id in t then t[id].attempts else CONFLICT_ATTEMPT_CAP }

  lemma SettlementSpends(t: Table, fates: map<nat, Fate>, claim: Claim, now: int, id: nat)
    requires AttemptsBelowCap(t) && id in t
    ensures var hit := id in fates && Held(t, id, claim) && fates[id].Conflict?;
      One(hit) + Spent(t, id) <= Spent(SettleRound(t, fates, claim, now), id) + 3 * One(hit && fates[id].advanced)
  {
    SettleRoundRows(t, fates, claim, now, id);
  }

  lemma StepSpends(db: Db, timed: Timed, id: nat)
    requires WellFormed(db) && AttemptsBelowCap(db.log) && ValidStep(db, timed) && id < db.nextId
    ensures One(ConflictAnswer(db, timed.step, id)) + Spent(db.log, id)
      <= Spent(Next(db, timed).log, id) + 3 * (One(AdvancingAnswer(db, timed.step, id)) + One(Revives(db, timed, id)))
  {
    NextParts(db, timed);
    if id in db.log {
      match timed.step
      case SettleReconcile(claim, fates, _, _, _, _, _, _) => SettlementSpends(db.log, fates, claim, timed.at, id);
      case SettleRows(claim, fates) => SettlementSpends(db.log, fates, claim, timed.at, id);
      case _ =>
    } else if id in Next(db, timed).log {
      NewRowsArePending(db, timed, id);
    }
  }

  lemma SettleRoundKeepsBelowCap(t: Table, fates: map<nat, Fate>, claim: Claim, now: int)
    requires AttemptsBelowCap(t)
    ensures AttemptsBelowCap(SettleRound(t, fates, claim, now))
  {
    SettleRoundAt(t, fates, claim, now);
    forall id | id in Resolved(t, fates, claim)
      ensures Resolved(t, fates, claim)[id].attempts <= CONFLICT_ATTEMPT_CAP
      ensures Queued(Resolved(t, fates, claim)[id]) ==> Resolved(t, fates, claim)[id].attempts < CONFLICT_ATTEMPT_CAP
    {
      ResolvedAt(t, fates, claim, id);
    }
  }

  lemma NextKeepsBelowCap(db: Db, timed: Timed)
    requires AttemptsBelowCap(db.log)
    ensures AttemptsBelowCap(Next(db, timed).log)
  {
    NextParts(db, timed);
    match timed.step
    case SettleReconcile(claim, fates, _, _, _, _, _, _) => SettleRoundKeepsBelowCap(db.log, fates, claim, timed.at);
    case SettleRows(claim, fates) => SettleRoundKeepsBelowCap(db.log, fates, claim, timed.at);
    case _ =>
  }

  lemma {:induction false} ConflictsAreBudgeted(db: Db, steps: seq<Timed>, id: nat)
    requires WellFormed(db) && Exclusive(db.log, db.now) && AttemptsBelowCap(db.log) && ValidRun(db, steps)
    requires id in db.log
    ensures AttemptsBelowCap(Run(db, steps).log) && id < Run(db, steps).nextId
    ensures ConflictAnswers(db, steps, id) + db.log[id].attempts
      <= Spent(Run(db, steps).log, id) + 3 * FreshStarts(db, steps, id)
  {
    if steps != [] {
      var before := steps[..|steps| - 1];
      ValidPrefix(db, steps);
      ConflictsAreBudgeted(db, before, id);
      ClaimsStayExclusive(db, before);
      NextParts(Run(db, before), steps[|steps| - 1]);
      StepSpends(Run(db, before), steps[|steps| - 1], id);
      NextKeepsBelowCap(Run(db, before), steps[|steps| - 1]);
    }
  }

  /**
   * Bounded conflicts: over any run a row sees at most three conflict answers per token it had not seen, keep-local
   * or first sending, and it stays queued only while its count is below the cap.
   */
  lemma {:induction false} ConflictsAreBounded(db: Db, steps: seq<Timed>, id: nat)
    requires WellFormed(db) && Exclusive(db.log, db.now) && AttemptsBelowCap(db.log) && ValidRun(db, steps)
    requires id in db.log
    ensures ConflictAnswers(db, steps, id) <= 3 * (FreshStarts(db, steps, id) + 1)
    ensures id in Run(db, steps).log && Queued(Run(db, steps).log[id]) ==>
      ConflictAnswers(db, steps, id) < 3 * (FreshStarts(db, steps, id) + 1)
  {
    ConflictsAreBudgeted(db, steps, id);
  }
}
