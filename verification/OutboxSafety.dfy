/** Safety of the outbox over every run of both runtimes: exclusive claims and queue order. */
module OutboxSafety {
  import opened Basics
  import opened OutboxTable
  import opened Protocol

  /** Row ids are issued in order; a claim sits only on a `processing` row and was taken in the past. */
  ghost predicate WellFormed(db: Db) {
    WellFormedTable(db.log, db.nextId, db.now)
  }

  /** At most one row of an anime carries a live claim. */
  ghost predicate Exclusive(t: Table, now: int) {
    forall i, j | i in t && j in t && Live(t[i], now) && Live(t[j], now) && t[i].animeId == t[j].animeId :: i == j
  }

  /** A row under a live claim comes before every other queued row of its anime. */
  ghost predicate HeldOldestFirst(t: Table, now: int) {
    forall i, j | i in t && j in t && Live(t[i], now) && Queued(t[j]) && t[i].animeId == t[j].animeId ::
      i == j || Before(t, i, j)
  }

  /** Rows only leave the queue and claims are only dropped: what a settlement does before it chains. */
  ghost predicate Calmer(t: Table, t': Table) {
    forall id | id in t' ::
      && id in t
      && t'[id].animeId == t[id].animeId && t'[id].createdAt == t[id].createdAt
      && (t'[id].claim.Some? ==> t'[id].claim == t[id].claim && t'[id].status == t[id].status)
      && (Queued(t'[id]) ==> Queued(t[id]))
  }

  lemma CalmerKeepsExclusive(t: Table, t': Table, now: int, later: int)
    requires Calmer(t, t') && Exclusive(t, now) && now <= later
    ensures Exclusive(t', later)
  {
  }

  lemma CalmerKeepsOrder(t: Table, t': Table, now: int, later: int)
    requires Calmer(t, t') && HeldOldestFirst(t, now) && now <= later
    ensures HeldOldestFirst(t', later)
  {
  }

  /** `t'` is `t` with some rows newly claimed, each the oldest queued row of a key nobody holds. */
  ghost predicate ClaimsOldest(t: Table, t': Table, ids: set<nat>, now: int) {
    && t'.Keys == t.Keys
    && (forall id | id in t && id !in ids :: t'[id] == t[id])
    && (forall id | id in ids ::
          && id in t && Oldest(t, id)
          && t'[id].animeId == t[id].animeId && t'[id].createdAt == t[id].createdAt && Queued(t'[id])
          && forall other | other in t && t[other].animeId == t[id].animeId :: !Live(t[other], now))
  }

  lemma ClaimsOldestKeepsExclusive(t: Table, t': Table, ids: set<nat>, now: int)
    requires ClaimsOldest(t, t', ids, now) && Exclusive(t, now)
    ensures Exclusive(t', now)
  {
    forall i, j | i in t' && j in t' && Live(t'[i], now) && Live(t'[j], now) && t'[i].animeId == t'[j].animeId
      ensures i == j
    {
      if i in ids && j in ids {
        assert Oldest(t, i) && Oldest(t, j);
      }
    }
  }

  lemma ClaimsOldestKeepsOrder(t: Table, t': Table, ids: set<nat>, now: int)
    requires ClaimsOldest(t, t', ids, now) && HeldOldestFirst(t, now)
    ensures HeldOldestFirst(t', now)
  {
    forall i, j | i in t' && j in t' && Live(t'[i], now) && Queued(t'[j]) && t'[i].animeId == t'[j].animeId
      ensures i == j || Before(t', i, j)
    {
      if i in ids {
        assert Oldest(t, i);
      } else {
        assert t'[i] == t[i];
        assert j !in ids;
      }
    }
  }

  /** What a settlement does before it claims the next rows. */
  function Resolved(t: Table, fates: map<nat, Fate>, claim: Claim): Table {
    var settled := Settle(t, fates, claim);
    settled - SupersededIds(settled, ConfirmedIds(t, fates, claim))
  }

  lemma ResolvedIsCalmer(t: Table, fates: map<nat, Fate>, claim: Claim)
    ensures Calmer(t, Resolved(t, fates, claim))
  {
    var settled := Settle(t, fates, claim);
    assert Calmer(t, settled);
    assert forall id | id in Resolved(t, fates, claim) :: id in settled && Resolved(t, fates, claim)[id] == settled[id];
  }

  /** While the chain budget lasts, nobody holds the key of a row just confirmed: its claim was the live one. */
  lemma ConfirmedKeyIsFree(t: Table, fates: map<nat, Fate>, claim: Claim, now: int, done: nat, other: nat)
    requires Exclusive(t, now) && now < claim.claimedAt + OUTBOX_CHAIN_BUDGET_MS
    requires done in ConfirmedIds(t, fates, claim) && other in Resolved(t, fates, claim)
    requires t[done].animeId == Resolved(t, fates, claim)[other].animeId
    ensures !Live(Resolved(t, fates, claim)[other], now)
  {
    var resolved := Resolved(t, fates, claim);
    ResolvedIsCalmer(t, fates, claim);
    assert Live(t[done], now);
    if other == done {
      assert resolved[done] == ApplyFate(t[done], Confirm);
    } else {
      assert Live(resolved[other], now) ==> Live(t[other], now);
    }
  }

  /** A chain claims only the oldest rows of keys nobody holds. */
  lemma ChainClaimsOldest(t: Table, fates: map<nat, Fate>, claim: Claim, now: int)
    requires Exclusive(t, now) && now < claim.claimedAt + OUTBOX_CHAIN_BUDGET_MS
    ensures var resolved := Resolved(t, fates, claim);
      var ids := SuccessorIds(resolved, AnimesOf(t, ConfirmedIds(t, fates, claim)));
      ClaimsOldest(resolved, SettleRound(t, fates, claim, now), ids, now)
  {
    var resolved := Resolved(t, fates, claim);
    var confirmed := ConfirmedIds(t, fates, claim);
    var animeIds := AnimesOf(t, confirmed);
    forall id, other | id in SuccessorIds(resolved, animeIds) && other in resolved
                       && resolved[other].animeId == resolved[id].animeId
      ensures !Live(resolved[other], now)
    {
      var done :| done in confirmed && done in t && t[done].animeId == resolved[id].animeId;
      ConfirmedKeyIsFree(t, fates, claim, now, done, other);
    }
    SuccessorsAreClaimed(resolved, animeIds, claim);
  }

  lemma SuccessorsAreClaimed(t: Table, animeIds: set<AnimeId>, claim: Claim)
    ensures var ids := SuccessorIds(t, animeIds);
      var t' := ClaimSuccessors(t, animeIds, claim);
      && t'.Keys == t.Keys
      && forall id | id in t :: t'[id] == if id in ids then t[id].(status := Processing, claim := Some(claim)) else t[id]
  {
  }

  lemma BatchClaimsOldest(t: Table, owner: Owner, now: int, limit: nat)
    ensures var ids := set id | id in Backlog(t, LiveClaimFloor(now), limit);
      ClaimsOldest(t, ClaimRows(t, ids, Claim(owner, now), LiveClaimFloor(now)), ids, now)
  {
    var ids := set id | id in Backlog(t, LiveClaimFloor(now), limit);
    forall id, other | id in ids && other in t && t[other].animeId == t[id].animeId
      ensures !Live(t[other], now)
    {
      assert id in ClaimableIds(t, LiveClaimFloor(now));
    }
  }

  /** A batch has nothing to claim exactly when every queued row's key is claimed already. */
  lemma NothingClaimableExactlyWhen(t: Table, floor: int)
    ensures ClaimableIds(t, floor) == {} <==> forall id | id in QueuedIds(t) :: KeyClaimed(t, t[id].animeId, floor)
  {
    if ClaimableIds(t, floor) == {} {
      forall id | id in QueuedIds(t) ensures KeyClaimed(t, t[id].animeId, floor) {
        var queue := set other | other in t && Queued(t[other]) && t[other].animeId == t[id].animeId;
        assert id in queue;
        EarliestExists(t, queue);
        var first :| first in queue && forall other | other in queue :: other == first || Before(t, first, other);
        assert Oldest(t, first);
        assert first !in ClaimableIds(t, floor);
      }
    }
  }

  lemma SettleRoundKeepsExclusive(t: Table, fates: map<nat, Fate>, claim: Claim, now: int)
    requires Exclusive(t, now)
    ensures Exclusive(SettleRound(t, fates, claim, now), now)
  {
    var resolved := Resolved(t, fates, claim);
    ResolvedIsCalmer(t, fates, claim);
    CalmerKeepsExclusive(t, resolved, now, now);
    if now < claim.claimedAt + OUTBOX_CHAIN_BUDGET_MS {
      ChainClaimsOldest(t, fates, claim, now);
      ClaimsOldestKeepsExclusive(resolved, SettleRound(t, fates, claim, now),
        SuccessorIds(resolved, AnimesOf(t, ConfirmedIds(t, fates, claim))), now);
    }
  }

  lemma SettleRoundKeepsOrder(t: Table, fates: map<nat, Fate>, claim: Claim, now: int)
    requires Exclusive(t, now) && HeldOldestFirst(t, now)
    ensures HeldOldestFirst(SettleRound(t, fates, claim, now), now)
  {
    var resolved := Resolved(t, fates, claim);
    ResolvedIsCalmer(t, fates, claim);
    CalmerKeepsOrder(t, resolved, now, now);
    if now < claim.claimedAt + OUTBOX_CHAIN_BUDGET_MS {
      ChainClaimsOldest(t, fates, claim, now);
      ClaimsOldestKeepsOrder(resolved, SettleRound(t, fates, claim, now),
        SuccessorIds(resolved, AnimesOf(t, ConfirmedIds(t, fates, claim))), now);
    }
  }

  /** A table whose rows carry issued ids and past claims on `processing` rows only. */
  ghost predicate WellFormedTable(t: Table, nextId: nat, now: int) {
    forall id | id in t ::
      id < nextId && (t[id].claim.Some? ==> t[id].status == Processing && t[id].claim.value.claimedAt <= now)
  }

  lemma SettleRoundKeepsWellFormed(t: Table, fates: map<nat, Fate>, claim: Claim, nextId: nat, now: int)
    requires WellFormedTable(t, nextId, now)
    ensures WellFormedTable(SettleRound(t, fates, claim, now), nextId, now)
  {
    var resolved := Resolved(t, fates, claim);
    ResolvedIsCalmer(t, fates, claim);
    var animeIds := AnimesOf(t, ConfirmedIds(t, fates, claim));
    SuccessorsAreClaimed(resolved, animeIds, claim);
    SettleRoundIsChained(t, fates, claim, now);
    hide SettleRound, Resolved, ClaimSuccessors;
    if SuccessorIds(resolved, animeIds) != {} {
      var next :| next in SuccessorIds(resolved, animeIds);
      var done :| done in ConfirmedIds(t, fates, claim) && t[done].animeId == resolved[next].animeId;
      assert claim.claimedAt <= now;
    }
  }

  lemma SettleRoundIsChained(t: Table, fates: map<nat, Fate>, claim: Claim, now: int)
    ensures SettleRound(t, fates, claim, now)
      == if now >= claim.claimedAt + OUTBOX_CHAIN_BUDGET_MS then Resolved(t, fates, claim)
         else ClaimSuccessors(Resolved(t, fates, claim), AnimesOf(t, ConfirmedIds(t, fates, claim)), claim)
  {
  }

  lemma NextParts(db: Db, timed: Timed)
    ensures var db' := Next(db, timed);
      && db'.log == NextLog(db, timed.at, timed.step)
      && db'.now == timed.at
      && db'.nextId == if Enqueues(db, timed.step) then db.nextId + 1 else db.nextId
  {
    match timed.step case _ =>
  }

  /** The row an enqueuing step adds. */
  function Enqueued(step: Step): Row
    requires step.QueueRating? || step.LocalEdit?
  {
    FreshRow(step.animeId, if step.QueueRating? then SEASON_RATING_OPERATION else ANIME_UPDATE_OPERATION,
             step.payload, step.createdAt)
  }

  lemma NextKeepsWellFormed(db: Db, timed: Timed)
    requires WellFormed(db) && ValidStep(db, timed)
    ensures WellFormed(Next(db, timed))
  {
    NextParts(db, timed);
    match timed.step
    case SettleReconcile(claim, fates, _, _, _, _, _, _) =>
      SettleRoundKeepsWellFormed(db.log, fates, claim, db.nextId, timed.at);
    case SettleRows(claim, fates) => SettleRoundKeepsWellFormed(db.log, fates, claim, db.nextId, timed.at);
    case FetchMissing(claim, ids, outcomes) => FetchFirstIsCalmer(db.log, ids, outcomes, claim);
    case _ =>
  }

  lemma FetchFirstIsCalmer(t: Table, ids: set<nat>, outcomes: map<AnimeId, TokenOutcome>, claim: Claim)
    ensures Calmer(t, FetchFirst(t, ids, outcomes, claim))
  {
  }

  /** Claims stay exclusive through any step, whoever takes it. */
  lemma NextKeepsExclusive(db: Db, timed: Timed)
    requires WellFormed(db) && Exclusive(db.log, db.now) && ValidStep(db, timed)
    ensures Exclusive(Next(db, timed).log, timed.at)
  {
    NextParts(db, timed);
    CalmerKeepsExclusive(db.log, db.log, db.now, timed.at);
    match timed.step
    case SettleReconcile(claim, fates, _, _, _, _, _, _) =>
      SettleRoundKeepsExclusive(db.log, fates, claim, timed.at);
    case SettleRows(claim, fates) => SettleRoundKeepsExclusive(db.log, fates, claim, timed.at);
    case FetchMissing(claim, ids, outcomes) =>
      FetchFirstIsCalmer(db.log, ids, outcomes, claim);
      CalmerKeepsExclusive(db.log, FetchFirst(db.log, ids, outcomes, claim), db.now, timed.at);
    case ClaimBatch(owner, limit) =>
      var ids := set id | id in Backlog(db.log, LiveClaimFloor(timed.at), limit);
      BatchClaimsOldest(db.log, owner, timed.at, limit);
      ClaimsOldestKeepsExclusive(db.log, Next(db, timed).log, ids, timed.at);
    case _ =>
  }

  /**
   * Queue order through any step. A new row keeps it exactly when no live holder of its anime was queued at a
   * later time: an edit whose clock was read before a slower writer's could break it.
   */
  lemma NextKeepsOrder(db: Db, timed: Timed)
    requires WellFormed(db) && Exclusive(db.log, db.now) && HeldOldestFirst(db.log, db.now) && ValidStep(db, timed)
    ensures HeldOldestFirst(Next(db, timed).log, timed.at) <==> EnqueuesBehindHolder(db, timed)
  {
    NextParts(db, timed);
    CalmerKeepsExclusive(db.log, db.log, db.now, timed.at);
    CalmerKeepsOrder(db.log, db.log, db.now, timed.at);
    match timed.step
    case SettleReconcile(claim, fates, _, _, _, _, _, _) => SettleRoundKeepsOrder(db.log, fates, claim, timed.at);
    case SettleRows(claim, fates) => SettleRoundKeepsOrder(db.log, fates, claim, timed.at);
    case FetchMissing(claim, ids, outcomes) =>
      FetchFirstIsCalmer(db.log, ids, outcomes, claim);
      CalmerKeepsOrder(db.log, FetchFirst(db.log, ids, outcomes, claim), db.now, timed.at);
    case ClaimBatch(owner, limit) =>
      var ids := set id | id in Backlog(db.log, LiveClaimFloor(timed.at), limit);
      BatchClaimsOldest(db.log, owner, timed.at, limit);
      ClaimsOldestKeepsOrder(db.log, Next(db, timed).log, ids, timed.at);
    case KeepLocalEdits(animeId) =>
      if !KeyClaimed(db.log, animeId, LiveClaimFloor(timed.at)) {
        RevivingKeepsOrder(db.log, GivenUpEdits(db.log, animeId), animeId, timed.at);
      }
    case KeepLocalRating(animeId, seasons) =>
      if !KeyClaimed(db.log, animeId, LiveClaimFloor(timed.at)) {
        RevivingKeepsOrder(db.log, RatingsOf(db.log, animeId, seasons, {DeadLetter}), animeId, timed.at);
      }
    case LocalEdit(_, _, _, _) => EnqueueKeepsOrder(db, timed);
    case QueueRating(_, _, _) => EnqueueKeepsOrder(db, timed);
    case _ =>
  }

  /** A new row is not dated before the row a live claim holds of its anime. */
  ghost predicate EnqueuesBehindHolder(db: Db, timed: Timed) {
    Enqueues(db, timed.step) ==>
      forall id | id in db.log && Live(db.log[id], timed.at) && db.log[id].animeId == timed.step.animeId ::
        db.log[id].createdAt <= timed.step.createdAt
  }

  lemma EnqueueKeepsOrder(db: Db, timed: Timed)
    requires WellFormed(db) && HeldOldestFirst(db.log, timed.at)
    requires timed.step.QueueRating? || timed.step.LocalEdit?
    ensures HeldOldestFirst(NextLog(db, timed.at, timed.step), timed.at) <==> EnqueuesBehindHolder(db, timed)
  {
    if Enqueues(db, timed.step) {
      var t' := NextLog(db, timed.at, timed.step);
      assert t' == db.log[db.nextId := Enqueued(timed.step)];
      forall id | id in db.log && Live(db.log[id], timed.at) && db.log[id].animeId == timed.step.animeId
        ensures Before(t', id, db.nextId) <==> db.log[id].createdAt <= timed.step.createdAt
      {
      }
      if HeldOldestFirst(t', timed.at) {
        forall id | id in db.log && Live(db.log[id], timed.at) && db.log[id].animeId == timed.step.animeId
          ensures db.log[id].createdAt <= timed.step.createdAt
        {
          assert Live(t'[id], timed.at) && Queued(t'[db.nextId]);
        }
      }
    }
  }

  lemma RevivingKeepsOrder(t: Table, ids: set<nat>, animeId: AnimeId, now: int)
    requires HeldOldestFirst(t, now) && !KeyClaimed(t, animeId, LiveClaimFloor(now))
    requires forall id | id in ids :: id in t && t[id].animeId == animeId
    ensures HeldOldestFirst(KeepLocal(t, ids), now)
  {
  }

  // ----- Over whole runs -----

  /**
   * Claim exclusivity in every reachable state: at most one row of an anime is under a live claim, and a row
   * that is not `processing` carries none.
   */
  lemma {:induction false} ClaimsStayExclusive(db: Db, steps: seq<Timed>)
    requires WellFormed(db) && Exclusive(db.log, db.now) && ValidRun(db, steps)
    ensures WellFormed(Run(db, steps)) && Exclusive(Run(db, steps).log, Run(db, steps).now)
  {
    if steps != [] {
      ValidPrefix(db, steps);
      var before := Run(db, steps[..|steps| - 1]);
      ClaimsStayExclusive(db, steps[..|steps| - 1]);
      NextKeepsWellFormed(before, steps[|steps| - 1]);
      NextKeepsExclusive(before, steps[|steps| - 1]);
      NextParts(before, steps[|steps| - 1]);
    }
  }

  ghost predicate OrderedAfter(db: Db, steps: seq<Timed>) { HeldOldestFirst(Run(db, steps).log, Run(db, steps).now) }

  ghost predicate OrderedThroughout(db: Db, steps: seq<Timed>) {
    forall k | 0 <= k <= |steps| :: OrderedAfter(db, steps[..k])
  }

  ghost predicate EnqueuesInOrder(db: Db, steps: seq<Timed>) {
    forall k | 0 <= k < |steps| :: EnqueuesBehindHolder(Run(db, steps[..k]), steps[k])
  }

  lemma ThroughoutByLast(db: Db, steps: seq<Timed>)
    requires steps != []
    ensures OrderedThroughout(db, steps) <==> OrderedThroughout(db, steps[..|steps| - 1]) && OrderedAfter(db, steps)
  {
    hide OrderedAfter;
    var before := steps[..|steps| - 1];
    assert steps[..|steps|] == steps;
    if OrderedThroughout(db, steps) {
      assert OrderedAfter(db, steps[..|steps|]);
      forall k | 0 <= k <= |before| ensures OrderedAfter(db, before[..k]) {
        assert steps[..k] == before[..k];
        assert OrderedAfter(db, steps[..k]);
      }
    }
    if OrderedThroughout(db, before) && OrderedAfter(db, steps) {
      forall k | 0 <= k <= |steps| ensures OrderedAfter(db, steps[..k]) {
        if k < |steps| {
          assert steps[..k] == before[..k];
          assert OrderedAfter(db, before[..k]);
        }
      }
    }
  }

  lemma EnqueuesByLast(db: Db, steps: seq<Timed>)
    requires steps != []
    ensures var before := steps[..|steps| - 1];
      EnqueuesInOrder(db, steps) <==>
      EnqueuesInOrder(db, before) && EnqueuesBehindHolder(Run(db, before), steps[|steps| - 1])
  {
    hide Run, EnqueuesBehindHolder;
    var before := steps[..|steps| - 1];
    assert forall k | 0 <= k < |before| :: steps[..k] == before[..k] && steps[k] == before[k];
  }

  /**
   * Queue order over a run: every row under a live claim is the oldest queued row of its anime in every state,
   * if and only if no row is queued with an earlier time than a row of its anime held at that moment.
   */
  lemma {:induction false} HeldRowsStayOldest(db: Db, steps: seq<Timed>)
    requires WellFormed(db) && Exclusive(db.log, db.now) && HeldOldestFirst(db.log, db.now) && ValidRun(db, steps)
    ensures OrderedThroughout(db, steps) <==> EnqueuesInOrder(db, steps)
  {
    if steps == [] {
      assert steps[..0] == [];
    } else {
      var before := steps[..|steps| - 1];
      ValidPrefix(db, steps);
      HeldRowsStayOldest(db, before);
      ThroughoutByLast(db, steps);
      EnqueuesByLast(db, steps);
      if OrderedThroughout(db, before) {
        assert before[..|before|] == before;
        assert OrderedAfter(db, before[..|before|]);
        ClaimsStayExclusive(db, before);
        NextKeepsOrder(Run(db, before), steps[|steps| - 1]);
        NextParts(Run(db, before), steps[|steps| - 1]);
      }
    }
  }

  // ----- Who can break queue order -----

  /** No row is dated after the last transaction. */
  ghost predicate DatedInPast(db: Db) { forall id | id in db.log :: db.log[id].createdAt <= db.now }

  /** A row that is queued is dated when its transaction runs, as a rating is, or earlier, as an edit is. */
  predicate DatedByNow(timed: Timed) {
    (timed.step.QueueRating? || timed.step.LocalEdit?) ==> timed.step.createdAt <= timed.at
  }

  /** Rows stay dated in the past, and one dated by its own transaction never comes before a row held then. */
  lemma DatedInsideTheDoorKeepsOrder(db: Db, timed: Timed)
    requires WellFormed(db) && DatedInPast(db) && ValidStep(db, timed) && DatedByNow(timed)
    ensures DatedInPast(Next(db, timed))
    ensures Enqueues(db, timed.step) && timed.step.createdAt == timed.at ==> EnqueuesBehindHolder(db, timed)
  {
    NextParts(db, timed);
    hide Next;
    match timed.step
    case SettleReconcile(claim, fates, _, _, _, _, _, _) => SettledDates(db.log, fates, claim, timed.at);
    case SettleRows(claim, fates) => SettledDates(db.log, fates, claim, timed.at);
    case _ =>
  }

  lemma SettledDates(t: Table, fates: map<nat, Fate>, claim: Claim, now: int)
    ensures var t' := SettleRound(t, fates, claim, now);
      forall id | id in t' :: id in t && t'[id].createdAt == t[id].createdAt
  {
    var resolved := Resolved(t, fates, claim);
    ResolvedIsCalmer(t, fates, claim);
    SuccessorsAreClaimed(resolved, AnimesOf(t, ConfirmedIds(t, fates, claim)), claim);
  }

  /** The row of a rating queued first, before and after it is claimed. */
  function QueuedRating(animeId: AnimeId, payload: Payload, claim: Option<Claim>): Row {
    FreshRow(animeId, SEASON_RATING_OPERATION, payload, 10).(
      status := if claim.Some? then Processing else Pending, claim := claim)
  }

  /** The three steps of the case: a rating queued, its claim, and an edit asked for before it. */
  function JumpingSteps(animeId: AnimeId, payload: Payload, owner: Owner): seq<Timed> {
    [Timed(10, QueueRating(animeId, payload, 10)), Timed(20, ClaimBatch(owner, 1)),
     Timed(30, LocalEdit(animeId, map[], payload, 5))]
  }

  lemma JumpingRun(db: Db, animeId: AnimeId, payload: Payload, owner: Owner)
    requires db.log == map[] && animeId in db.animes && db.now <= 10
    ensures var steps := JumpingSteps(animeId, payload, owner);
      && |steps| == 3 && ValidRun(db, steps)
      && Run(db, steps[..1]).log == map[db.nextId := QueuedRating(animeId, payload, None)]
      && Run(db, steps[..2]).log == map[db.nextId := QueuedRating(animeId, payload, Some(Claim(owner, 20)))]
      && Run(db, steps).log == Run(db, steps[..2]).log[
           db.nextId + 1 := FreshRow(animeId, ANIME_UPDATE_OPERATION, payload, 5)]
      && Run(db, steps[..1]).now == 10 && Run(db, steps[..2]).now == 20 && Run(db, steps).now == 30
  {
    hide Run, Next, ValidRun, Backlog, ClaimRows, AnimesOf;
    var steps := JumpingSteps(animeId, payload, owner);
    var queued := Next(db, steps[0]);
    var held := Next(queued, steps[1]);
    RunOfNone(db);
    RunExtends(db, [], steps[0]);
    RunExtends(db, [steps[0]], steps[1]);
    RunExtends(db, [steps[0], steps[1]], steps[2]);
    assert [] + [steps[0]] == steps[..1] && [steps[0]] + [steps[1]] == steps[..2];
    assert [steps[0]] == steps[..1] && [steps[0], steps[1]] == steps[..2] && [steps[0], steps[1]] + [steps[2]] == steps;
    NextOf(db, steps[0]);
    NextOf(queued, steps[1]);
    NextOf(held, steps[2]);
    OnlyRowIsClaimed(queued.log, db.nextId, owner, 20);
  }

  lemma RunOfNone(db: Db)
    ensures Run(db, []) == db && ValidRun(db, [])
  {
  }

  lemma NextOf(db: Db, timed: Timed)
    ensures var db' := Next(db, timed);
      && db'.log == NextLog(db, timed.at, timed.step) && db'.now == timed.at
      && db'.nextId == (if Enqueues(db, timed.step) then db.nextId + 1 else db.nextId)
      && (timed.step.QueueRating? || timed.step.ClaimBatch? ==> db'.animes == db.animes)
  {
    NextParts(db, timed);
  }

  /**
   * An edit dated before the write door can: asked for at 5, it waits behind a rating dated 10 that is claimed at 20,
   * and is queued at 30 ahead of the row being sent.
   */
  lemma AnEditDatedBeforeTheDoorJumpsTheQueue(db: Db, animeId: AnimeId, payload: Payload, owner: Owner)
    requires db.log == map[] && animeId in db.animes && db.now <= 10
    ensures var steps := JumpingSteps(animeId, payload, owner);
      |steps| == 3 && ValidRun(db, steps) && OrderedAfter(db, steps[..2]) && !OrderedAfter(db, steps)
  {
    hide Run, ValidRun, JumpingSteps;
    var steps := JumpingSteps(animeId, payload, owner);
    JumpingRun(db, animeId, payload, owner);
    var after := Run(db, steps).log;
    assert Live(after[db.nextId], 30) && Queued(after[db.nextId + 1]);
    assert !Before(after, db.nextId, db.nextId + 1);
  }

  lemma OnlyRowIsClaimed(t: Table, id: nat, owner: Owner, now: int)
    requires t.Keys == {id} && t[id].status == Pending && t[id].claim.None?
    ensures var ids := set k | k in Backlog(t, LiveClaimFloor(now), 1);
      ClaimRows(t, ids, Claim(owner, now), LiveClaimFloor(now))
      == t[id := t[id].(status := Processing, claim := Some(Claim(owner, now)))]
  {
    assert Oldest(t, id) && !KeyClaimed(t, t[id].animeId, LiveClaimFloor(now));
    assert ClaimableIds(t, LiveClaimFloor(now)) == {id};
    var backlog := Backlog(t, LiveClaimFloor(now), 1);
    assert |backlog| == 1 && backlog[0] in ClaimableIds(t, LiveClaimFloor(now));
  }
}
