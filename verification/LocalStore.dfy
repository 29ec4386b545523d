/**
 * The database as one runtime writes it: each method is the body of one write transaction, statement by statement,
 * and is proved to be one step of the protocol. Between its transactions the other runtime and the screens act.
 */
module LocalStore {
  import opened Basics
  import opened OutboxTable
  import opened AnimeTable
  import opened FieldMerge
  import opened MergeBoundary
  import opened MergeOrder
  import opened SnapshotHeal
  import opened Protocol
  import opened OutboxSafety
  import opened OutboxHistory
  import opened ReconcileAnswer
  import opened CycleRelations
  import opened StoreFacts
  import opened PassSafety
  import opened MergeOutcome

  /** Every edit of the request carries a base token, and no anime is in it twice. */
  ghost predicate WellFormedRequest(request: Request) {
    && (forall i | 0 <= i < |request.operations| :: request.operations[i].base.Some?)
    && forall i, j | 0 <= i < j < |request.operations| ::
         request.operations[i].animeId != request.operations[j].animeId
  }

  /** The state is what the recorded run of valid steps leads to, from a sound start. */
  ghost predicate Traced(origin: Db, history: seq<Timed>, db: Db) {
    Sound(origin) && ValidRun(origin, history) && Run(origin, history) == db
  }

  ghost predicate Sound(db: Db) {
    && WellFormed(db) && Exclusive(db.log, db.now)
    && (db.pairing.Some? ==> 0 <= db.pairing.value.cursor)
  }

  lemma TraceExtends(origin: Db, history: seq<Timed>, db: Db, timed: Timed)
    requires Traced(origin, history, db) && Sound(db) && ValidStep(db, timed)
    ensures Traced(origin, history + [timed], Next(db, timed)) && Sound(Next(db, timed))
    ensures Later(db, Next(db, timed))
    ensures Confirmations(origin, history + [timed]) == Confirmations(origin, history) + |ConfirmedBy(db, timed.step)|
  {
    RunExtends(origin, history, timed);
    NextParts(db, timed);
    NextKeepsWellFormed(db, timed);
    NextKeepsExclusive(db, timed);
    StepIsLater(db, timed);
    assert (history + [timed])[..|history|] == history;
  }

  lemma NextIdIsFree(db: Db)
    requires Sound(db)
    ensures db.nextId !in db.log
  {
  }

  class Store {
    var log: Table
    var nextId: nat
    var animes: Animes
    var staged: seq<RemoteChange>
    var pairing: Option<Pairing>
    var now: int

    /** What the other runtime and the screens are still going to do. */
    var others: seq<Timed>

    ghost const origin: Db
    ghost var history: seq<Timed>

    /** Confirmations this runtime counted, and those of the other one. */
    ghost var ours: nat
    ghost var theirs: nat

    /** Every reconcile request sent, and how many ratings the bridge accepted. */
    ghost var wire: seq<Request>
    ghost var graded: nat

    function State(): Db reads this { Db(log, nextId, animes, staged, pairing, now) }

    ghost predicate Valid()
      reads this
    {
      && Traced(origin, history, State()) && Sound(State())
      && ours + theirs == Confirmations(origin, history)
      && forall i | 0 <= i < |wire| :: WellFormedRequest(wire[i])
    }

    constructor (db: Db, others: seq<Timed>)
      requires Sound(db)
      ensures Valid() && State() == db && this.others == others && origin == db && history == []
    {
      log, nextId, animes, staged, pairing, now := db.log, db.nextId, db.animes, db.staged, db.pairing, db.now;
      this.others := others;
      origin, history := db, [];
      ours, theirs, wire, graded := 0, 0, [], 0;
    }

    /** The clock: any reading no earlier than the last one. */
    method ReadClock() returns (at: int)
      ensures now <= at
    {
      at := *;
      if at < now {
        at := now;
      }
    }

    /** Records that the fields now hold what `timed` makes of `before`. */
    ghost method Record(before: Db, timed: Timed)
      requires Traced(origin, history, before) && Sound(before) && ours + theirs == Confirmations(origin, history)
      requires ValidStep(before, timed) && State() == Next(before, timed)
      requires forall i | 0 <= i < |wire| :: WellFormedRequest(wire[i])
      modifies this`history, this`ours
      ensures Valid() && history == old(history) + [timed] && Later(before, State())
      ensures ours == old(ours) + |ConfirmedBy(before, timed.step)|
    {
      hide Run, Next, Confirmations;
      TraceExtends(origin, history, before, timed);
      history := history + [timed];
      ours := ours + |ConfirmedBy(before, timed.step)|;
    }

    /** One step of the others. */
    method TakeForeignStep(timed: Timed)
      requires Valid() && Foreign(timed.step) && ValidStep(State(), timed)
      modifies `log, `nextId, `animes, `staged, `pairing, `now, `history, `theirs
      ensures Valid() && history == old(history) + [timed] && Undisturbed(old(State()), State())
    {
      hide Run, Next, Confirmations, Traced;
      ghost var before := State();
      var after := Next(State(), timed);
      TraceExtends(origin, history, before, timed);
      ForeignStepUndisturbs(before, timed);
      log, nextId, animes := after.log, after.nextId, after.animes;
      staged, pairing, now := after.staged, after.pairing, after.now;
      assert State() == after;
      history, theirs := history + [timed], theirs + |ConfirmedBy(before, timed.step)|;
    }

    /** What the others may have done by now: any of their next steps, in their order. */
    method Interfere()
      requires Valid()
      modifies `log, `nextId, `animes, `staged, `pairing, `now, `history, `theirs, `others
      ensures Valid() && old(history) <= history && Undisturbed(old(State()), State())
      ensures OnlyOthers(history, |old(history)|, |history|)
      ensures |others| <= |old(others)|
      ensures |others| == |old(others)| ==> State() == old(State()) && theirs == old(theirs)
    {
      hide Run, Next, Confirmations, ValidStep, Undisturbed, Traced;
      UndisturbedByNothing(State());
      var count: nat := *;
      while 0 < count && others != []
        invariant Valid() && old(history) <= history && Undisturbed(old(State()), State())
        invariant OnlyOthers(history, |old(history)|, |history|)
        invariant |others| <= |old(others)|
        invariant |others| == |old(others)| ==> State() == old(State()) && theirs == old(theirs)
        decreases count
      {
        var timed := others[0];
        others := others[1..];
        count := count - 1;
        if Foreign(timed.step) && ValidStep(State(), timed) {
          ghost var before := State();
          TakeForeignStep(timed);
          UndisturbedTwice(old(State()), before, State());
        }
      }
    }

    // ----- The claim protocol -----

    /** Takes the backlog under a fresh claim: every row the query ranks first is won, and comes back as stored. */
    method ClaimOperationLogBatch(limit: nat) returns (claim: Claim, rows: seq<Operation>)
      requires Valid()
      modifies `log, `now, `history, `ours
      ensures Valid() && Later(old(State()), State())
      ensures claim == Claim(Js, now) && history == old(history) + [Timed(now, ClaimBatch(Js, limit))]
      ensures ours == old(ours) && QueuedIds(log) == old(QueuedIds(log))
      ensures Handed(old(log), log, claim, {}, IdsOf(rows))
      ensures Carried(rows, State(), claim)
      ensures Takes(old(log), log, rows, claim, limit)
      ensures var backlog := Backlog(old(log), LiveClaimFloor(now), limit);
        |rows| == |backlog| && forall i | 0 <= i < |rows| :: rows[i].id == backlog[i] && Held(log, rows[i].id, claim)
    {
      hide Run, Next, Confirmations, Traced, Backlog, HeldRows;
      ghost var before := State();
      var at := ReadClock();
      claim := Claim(Js, at);
      var floor := LiveClaimFloor(at);
      var candidates := Backlog(log, floor, limit);
      log := ClaimRows(log, (set id | id in candidates), claim, floor);
      now := at;
      assert log == BatchClaim(before.log, limit, claim);
      hide ClaimRows, BatchClaim, Handed, Carried, IdsOf, OnePerAnime;
      BatchStep(before, limit, at);
      Record(before, Timed(at, ClaimBatch(Js, limit)));
      rows := CollectHeld(candidates, claim);
      BatchTakes(before.log, limit, claim, rows);
      hide Takes;
      BatchIsWon(before.log, limit, claim);
      HeldRowsAreCarried(rows, State(), claim);
    }

    /** The rows among `candidates` the claim holds, in their order. */
    method CollectHeld(candidates: seq<nat>, claim: Claim) returns (rows: seq<Operation>)
      ensures rows == HeldRows(log, candidates, claim)
    {
      var held := HeldIds(log, (set id | id in candidates), claim);
      rows := [];
      for i := 0 to |candidates|
        invariant rows == HeldRows(log, candidates[..i], claim)
      {
        assert candidates[..i + 1][..i] == candidates[..i];
        if candidates[i] in held {
          rows := rows + [Operation(candidates[i], log[candidates[i]])];
        }
      }
      assert candidates[..|candidates|] == candidates;
    }

    // ----- The merge boundary -----

    method ApplyRemoteChanges(changes: seq<RemoteChange>, context: MergeContext) returns (tally: Tally)
      modifies `animes
      ensures animes == ApplyChanges(old(animes), changes, context)
      ensures tally == TallyOf(old(animes), changes, context)
    {
      var applied, dropped, deferred, rejected: nat := 0, 0, 0, 0;
      for i := 0 to |changes|
        invariant animes == ApplyChanges(old(animes), changes[..i], context)
        invariant Tally(applied, dropped, deferred, rejected) == TallyOf(old(animes), changes[..i], context)
      {
        assert changes[..i + 1][..i] == changes[..i];
        var change := changes[i];
        match DecideMerge(change, context) {
          case Remove =>
            animes := animes - {change.recordId};
            applied := applied + 1;
          case Apply =>
            var (written, outcome) := ApplyAccepted(animes, change);
            animes := written;
            if outcome == Applied {
              applied := applied + 1;
            } else if outcome == AcceptedOutcome.Rejected {
              rejected := rejected + 1;
            }
          case DropStale => dropped := dropped + 1;
          case DeferOutbox => deferred := deferred + 1;
        }
      }
      assert changes[..|changes|] == changes;
      tally := Tally(applied, dropped, deferred, rejected);
    }

    /** One merge pass inside the caller's transaction: staged changes first, then the incoming ones. */
    method ApplyStagedAndIncomingRemoteChanges(incoming: seq<RemoteChange>) returns (tally: Tally)
      modifies `animes, `staged
      ensures (animes, staged) == Pass(old(animes), old(staged), incoming, Unacked(log))
      ensures AllCoherent(old(staged)) && AllCoherent(incoming) ==>
        UnsentEditsAreSafe(log, old(animes), animes, old(staged) + incoming, staged)
      ensures tally == TallyOf(old(animes), ChangesOf(PassEntries(old(staged), incoming)), ContextOf(old(animes), Unacked(log)))
    {
      hide ApplyChanges, TallyOf, Insert, ByTimestamp, KeptIncoming, DecideMerge, Unacked;
      var entries := ByTimestamp(ByTimestamp(StagedEntries(staged)) + IncomingEntries(incoming));
      SortTwice(StagedEntries(staged), IncomingEntries(incoming));
      assert entries == PassEntries(staged, incoming);
      var changes := ChangesOf(entries);
      var context := ContextOf(animes, Unacked(log));
      tally := ApplyRemoteChanges(changes, context);
      var consumed, kept := SplitEntries(entries, changes, context);
      ConsumedAreTheOthers(staged, incoming, consumed, changes, context);
      if AllCoherent(staged) && AllCoherent(incoming) {
        PassIsSafe(log, old(animes), staged, incoming);
      }
      hide UnsentEditsAreSafe;
      staged := DropAt(staged, consumed) + kept;
    }

    /**
     * Replays what is staged, in a transaction of its own; with nothing staged no transaction is opened. The others may
     * act between the look at the staging table and the transaction, which reads the table again.
     */
    method DrainPendingRemoteChanges() returns (tally: Tally, ghost before: Db)
      requires Valid()
      modifies `log, `nextId, `animes, `staged, `pairing, `now, `history, `ours, `theirs, `others
      ensures Valid() && old(history) <= history && Undisturbed(old(State()), before)
      ensures old(staged) == [] ==> before == State() == old(State()) && history == old(history) && tally == Tally(0, 0, 0, 0)
      ensures old(staged) != [] ==>
        var entries := PassEntries(before.staged, []);
        && (AllCoherent(before.staged) ==>
              UnsentEditsAreSafe(before.log, before.animes, animes, before.staged + [], staged))
        && State() == Next(before, Timed(now, Drain)) && history != [] && history[|history| - 1] == Timed(now, Drain)
        && tally == TallyOf(before.animes, ChangesOf(entries), ContextOf(before.animes, Unacked(before.log)))
    {
      hide Run, Next, Confirmations, Traced, Sound, Pass, TallyOf, PassEntries, Unacked, Undisturbed, UnsentEditsAreSafe;
      before := State();
      tally := Tally(0, 0, 0, 0);
      UndisturbedByNothing(before);
      if staged == [] {
        return;
      }
      Interfere();
      before := State();
      var at := ReadClock();
      tally := ApplyStagedAndIncomingRemoteChanges([]);
      now := at;
      DrainStep(before, at);
      Record(before, Timed(at, Drain));
    }

    // ----- What the screens queue -----

    /**
     * Writes a local edit and queues it: the row and its outbox row together, or neither when the anime is gone. The
     * edit is dated when it is asked for, before it waits for the write door, and patched from the row it finds there.
     */
    method ApplyAnimeMutationPatch(animeId: AnimeId, build: (AnimeRow, int) -> (Columns, Payload))
      returns (didMutate: bool, createdAt: int, ghost before: Db)
      requires Valid()
      requires forall row: AnimeRow, at: int :: build(row, at).0.Keys <= LOCAL_EDIT_COLUMNS
      modifies `log, `nextId, `animes, `staged, `pairing, `now, `history, `ours, `theirs, `others
      ensures Valid() && old(history) <= history && Undisturbed(old(State()), before)
      ensures old(now) <= createdAt && before.now <= now
      ensures didMutate <==> animeId in before.animes
      ensures !didMutate ==> State() == before.(now := now)
      ensures didMutate ==>
        var (columns, payload) := build(before.animes[animeId], createdAt);
        && State() == Next(before, Timed(now, LocalEdit(animeId, columns, payload, createdAt)))
        && EditIsWritten(before.animes, animes, animeId, columns)
        && IsQueued(before.log, log, before.nextId, Row(animeId, "update", payload, Pending, createdAt, 0, None, None))
    {
      hide Run, Next, Confirmations, Traced, Sound, Undisturbed;
      createdAt := ReadClock();
      Interfere();
      before := State();
      var at := ReadClock();
      didMutate := animeId in animes;
      var columns: Columns, payload: Payload := map[], map[];
      NextIdIsFree(before);
      hide EditIsWritten, IsQueued, EditRow, FreshRow, WellFormedRequest;
      if didMutate {
        var built := build(animes[animeId], createdAt);
        columns, payload := built.0, built.1;
        EditingMeans(animes, animeId, columns);
        QueueingMeans(log, nextId, animeId, ANIME_UPDATE_OPERATION, payload, createdAt);
        animes := EditRow(animes, animeId, columns);
        log := log[nextId := FreshRow(animeId, ANIME_UPDATE_OPERATION, payload, createdAt)];
        nextId := nextId + 1;
      }
      now := at;
      EditStep(before, animeId, columns, payload, createdAt, at);
      Record(before, Timed(at, LocalEdit(animeId, columns, payload, createdAt)));
    }

    /** Queues a season rating, dated inside its own transaction. */
    method EnqueueSeasonRatingIntent(animeId: AnimeId, payload: Payload) returns (ghost before: Db)
      requires Valid()
      modifies `log, `nextId, `animes, `staged, `pairing, `now, `history, `ours, `theirs, `others
      ensures Valid() && old(history) <= history && Undisturbed(old(State()), before) && before.now <= now
      ensures State() == Next(before, Timed(now, QueueRating(animeId, payload, now)))
      ensures IsQueued(before.log, log, before.nextId, Row(animeId, "season_rating", payload, Pending, now, 0, None, None))
      ensures animes == before.animes
    {
      hide Run, Next, Confirmations, Traced, Sound, Undisturbed;
      Interfere();
      before := State();
      var at := ReadClock();
      NextIdIsFree(before);
      hide IsQueued, FreshRow, WellFormedRequest;
      QueueingMeans(log, nextId, animeId, SEASON_RATING_OPERATION, payload, at);
      log := log[nextId := FreshRow(animeId, SEASON_RATING_OPERATION, payload, at)];
      nextId := nextId + 1;
      now := at;
      RatingStep(before, animeId, payload, at, at);
      Record(before, Timed(at, QueueRating(animeId, payload, at)));
    }

    // ----- The settlement of a reconcile answer -----

    /** The conflicts of an answer: each re-bases its anime on the bridge's token, then releases its row. */
    method WriteConflictOutcomes(conflicts: seq<ConflictOutcome>, claim: Claim, ghost fates: map<nat, Fate>)
      requires ConflictsAgree(log, fates, claim, conflicts)
      modifies `log, `animes
      ensures Partly(old(log), log, fates, claim, OutcomeIds(conflicts))
      ensures animes == WriteRebases(old(animes), RebasesOf(conflicts), old(log), claim)
    {
      for i := 0 to |conflicts|
        invariant animes == WriteRebases(old(animes), RebasesOf(conflicts[..i]), old(log), claim)
        invariant Partly(old(log), log, fates, claim, OutcomeIds(conflicts[..i]))
      {
        RebasesNext(old(animes), conflicts, i, old(log), claim);
        ConflictWrite(old(log), log, fates, claim, OutcomeIds(conflicts[..i]), conflicts[i]);
        OutcomeIdsNext(conflicts, i);
        animes := ApplyToken(animes, conflicts[i].operation.row.animeId, Some(conflicts[i].token));
        log := WriteConflict(log, conflicts[i], claim);
      }
      assert conflicts[..|conflicts|] == conflicts;
    }

    /** The status writes of an answer, bucket by bucket, after its conflicts: together, one settlement. */
    method WriteStatuses(deadLetters: seq<nat>, confirmed: seq<nat>, remaining: seq<nat>, claim: Claim,
                         ghost before: Table, ghost fates: map<nat, Fate>, ghost conflicts: seq<ConflictOutcome>)
      requires Buckets(before, fates, claim, conflicts, deadLetters, confirmed, remaining)
      requires Partly(before, log, fates, claim, OutcomeIds(conflicts))
      modifies `log
      ensures log == Settle(before, fates, claim)
    {
      hide Partly, ApplyFate, Held;
      ghost var written := OutcomeIds(conflicts);
      if deadLetters != [] {
        StatusWrite(before, log, fates, claim, written, ToSet(deadLetters), GiveUp(None));
        log := UpdateHeld(log, ToSet(deadLetters), claim, GiveUp(None));
      }
      assert Partly(before, log, fates, claim, written + ToSet(deadLetters)) by {
        if deadLetters == [] { assert written + ToSet(deadLetters) == written; }
      }
      written := written + ToSet(deadLetters);
      if confirmed != [] {
        StatusWrite(before, log, fates, claim, written, ToSet(confirmed), Confirm);
        log := UpdateHeld(log, ToSet(confirmed), claim, Confirm);
      }
      assert Partly(before, log, fates, claim, written + ToSet(confirmed)) by {
        if confirmed == [] { assert written + ToSet(confirmed) == written; }
      }
      written := written + ToSet(confirmed);
      if remaining != [] {
        StatusWrite(before, log, fates, claim, written, ToSet(remaining), Return);
        log := UpdateHeld(log, ToSet(remaining), claim, Return);
      }
      assert Partly(before, log, fates, claim, written + ToSet(remaining)) by {
        if remaining == [] { assert written + ToSet(remaining) == written; }
      }
      AllWritten(before, log, fates, claim, written + ToSet(remaining));
    }

    /** Every write of an answer, inside the caller's transaction. */
    method ApplyReconcileResponseWrites(changes: seq<RemoteChange>, tokens: Tokens, conflicts: seq<ConflictOutcome>,
                                        deadLetters: seq<nat>, confirmed: seq<nat>, remaining: seq<nat>,
                                        sent: int, answered: int, pairingId: nat, claim: Claim, ghost fates: map<nat, Fate>)
      requires Buckets(log, fates, claim, conflicts, deadLetters, confirmed, remaining)
      modifies `log, `animes, `staged, `pairing
      ensures log == Settle(old(log), fates, claim)
      ensures var (merged, kept) := Pass(old(animes), old(staged), changes, Unacked(old(log)));
        animes == WriteRebases(WriteTokens(merged, tokens), RebasesOf(conflicts), old(log), claim) && staged == kept
      ensures pairing == AdvanceCursor(old(pairing), pairingId, sent, answered)
    {
      hide Pass, Unacked, WriteTokens, WriteRebases, Settle, Partly;
      var tally := ApplyStagedAndIncomingRemoteChanges(changes);
      animes := WriteTokens(animes, tokens);
      WriteConflictOutcomes(conflicts, claim, fates);
      WriteStatuses(deadLetters, confirmed, remaining, claim, old(log), fates, conflicts);
      if answered > sent && pairing.Some? && pairing.value.id == pairingId {
        pairing := Some(Pairing(pairingId, Max(pairing.value.cursor, answered)));
      }
    }

    // ----- Superseded rows and the chain -----

    /** Deletes the given-up edits each confirmed edit carries its key past: the only rows a cycle deletes. */
    method ResolveSupersededOperations(confirmed: seq<Operation>)
      requires forall i | 0 <= i < |confirmed| :: StoredEdit(log, confirmed[i])
      modifies `log
      ensures log == old(log) - SupersededIds(old(log), IdsOf(confirmed))
    {
      for i := 0 to |confirmed|
        invariant log == old(log) - SupersededIds(old(log), IdsOf(confirmed[..i]))
      {
        SupersededNext(old(log), confirmed, i);
        var rows := SupersededBy(log, confirmed[i]);
        if rows != {} {
          log := log - rows;
        }
        assert rows == {} ==> log - rows == log;
      }
      assert confirmed[..|confirmed|] == confirmed;
    }

    method ResolveSupersededRatings(rating: Operation)
      requires rating.id in log && log[rating.id].animeId == rating.row.animeId
      requires log[rating.id].operation == SEASON_RATING_OPERATION && log[rating.id].payload == rating.row.payload
      modifies `log
      ensures log == old(log) - SupersededIds(old(log), {rating.id})
    {
      var rows := RatingsSupersededBy(log, rating);
      assert rows == SupersededIds(log, {rating.id}) by {
        assert forall other | other in log :: other in rows <==> Supersedes(log, rating.id, other);
      }
      if rows != {} {
        log := log - rows;
      }
      assert rows == {} ==> log - rows == log;
    }

    /** Claims, under the same claim, the next row of every key just confirmed. */
    method ClaimChainSuccessors(animeIds: set<AnimeId>, claim: Claim) returns (rows: seq<Operation>)
      modifies `log
      ensures log == ClaimSuccessors(old(log), animeIds, claim)
      ensures rows == HeldRows(log, InQueueOrder(old(log), SuccessorIds(old(log), animeIds)), claim)
    {
      hide InQueueOrder;
      NoKeyNoSuccessor(log, claim);
      if animeIds == {} {
        return [];
      }
      var candidates := InQueueOrder(log, SuccessorIds(log, animeIds));
      log := ClaimSuccessors(log, animeIds, claim);
      rows := CollectHeld(candidates, claim);
    }

    /**
     * The transaction of one reconcile answer: the merge pass, the tokens, every row's fate, the rows it supersedes and
     * the next row of every confirmed key. It is one step of the protocol.
     */
    method SettleAnswer(operations: seq<Operation>, response: Response, bases: Tokens, tokens: Tokens,
                        conflicts: seq<ConflictOutcome>, confirmed: seq<nat>, remaining: seq<nat>, deadLetters: seq<nat>,
                        sent: int, pairingId: nat, claim: Claim)
      returns (count: nat, successors: seq<Operation>)
      requires Valid() && Carried(operations, State(), claim) && OnePerAnime(operations) && EditsOnly(operations)
      requires Classified(operations, response, bases, confirmed, remaining, deadLetters)
      requires conflicts == ConflictOutcomes(Unconfirmed(operations, response), response.applied, bases)
      requires tokens == ConfirmedTokens(response.applied)
      requires ReadFromCursor(pairing, pairingId, sent)
      modifies `log, `animes, `staged, `pairing, `now, `history, `ours
      ensures Valid() && Later(old(State()), State())
      ensures var timed := Timed(now, AnswerStep(operations, response, bases, sent, pairingId, claim));
        State() == Next(old(State()), timed) && history == old(history) + [timed]
      ensures count == |ConfirmedIds(old(log), FatesOf(operations, response, bases), claim)| && ours == old(ours) + count
      ensures log == SettleRound(old(log), FatesOf(operations, response, bases), claim, now)
      ensures pairing == AdvanceCursor(old(pairing), pairingId, sent, AnsweredCursor(response, sent))
      ensures successors == ChainRows(old(log), FatesOf(operations, response, bases), claim, now)
    {
      hide Run, Next, Confirmations, Traced, Sound, Later, Pass, Unacked, FatesOf, SettleRound, Classified, Settle,
        WriteTokens, WriteRebases, HeldOutcomes, ConflictOutcomes, AdvanceCursor, HeldRows, InQueueOrder, Buckets,
        ConfirmedIds, HeldAnimes, AnimesOf, SupersededIds, ConfirmedTokens, Carried, WellFormedRequest;
      ghost var before := State();
      ghost var fates := FatesOf(operations, response, bases);
      var at := ReadClock();
      var stillHeld := HeldIds(log, IdsOf(operations), claim);
      var heldAnimeIds, confirmedOperations := CollectAnswered(operations, stillHeld, confirmed);
      CollectedAreConfirmed(before, operations, response, bases, claim, confirmed, remaining, deadLetters,
                            heldAnimeIds, confirmedOperations);
      AnswerBuckets(before, operations, response, bases, claim, confirmed, remaining, deadLetters);
      ApplyReconcileResponseWrites(NormalizeChanges(response.changes),
        map id | id in tokens && id in heldAnimeIds :: tokens[id], HeldOutcomes(conflicts, stillHeld),
        deadLetters, confirmed, remaining, sent, AnsweredCursor(response, sent), pairingId, claim, fates);
      AnswerStepIs(before, operations, response, bases, sent, pairingId, claim, at, animes, staged, stillHeld);
      ConfirmedAreStored(before, operations, fates, claim, log, confirmedOperations);
      ResolveSupersededOperations(confirmedOperations);
      assert log == Resolved(before.log, fates, claim);
      if ChainIsOver(claim, at) {
        successors := [];
      } else {
        successors := ClaimChainSuccessors(AnimeIdsOf(confirmedOperations), claim);
      }
      SettleRoundIsChained(before.log, fates, claim, at);
      now := at;
      count := |confirmedOperations|;
      DistinctIdsCount(confirmedOperations);
      Record(before, Timed(at, AnswerStep(operations, response, bases, sent, pairingId, claim)));
    }

    // ----- Fetch-first, ratings and releases -----

    /** Writes one fetch-first outcome, inside the caller's transaction. */
    method ApplyMissingTokenOutcome(animeId: AnimeId, heldIds: set<nat>, claim: Claim, outcome: TokenOutcome)
      modifies `log, `animes
      ensures log == WriteOutcome(old(log), animeId, heldIds, claim, outcome)
      ensures animes == if outcome.Token? then StoreFetched(old(animes), animeId, outcome.token, log, claim) else old(animes)
      ensures outcome.Token? ==> log == old(log) && TokenIsStored(old(animes), animes, animeId, outcome.token, ClaimHoldsAnime(log, animeId, claim))
      ensures outcome.Unreachable? ==> animes == old(animes) && KeyIsReleased(old(log), log, heldIds, claim)
      ensures outcome.Unresolved? ==> animes == old(animes) && KeyIsGivenUp(old(log), log, animeId, heldIds, claim, outcome.why)
    {
      hide TokenIsStored, KeyIsReleased, KeyIsGivenUp, StoreFetched, GiveKeyUp, UpdateHeld;
      match outcome {
        case Token(token) =>
          StoringMeans(animes, animeId, token, log, claim);
          animes := StoreFetched(animes, animeId, token, log, claim);
        case Unreachable =>
          ReleasingMeans(log, heldIds, claim);
          log := UpdateHeld(log, heldIds, claim, Return);
        case Unresolved(why) =>
          GivingUpMeans(log, animeId, heldIds, claim, why);
          log := GiveKeyUp(log, animeId, heldIds, claim, why);
      }
    }

    /** The transaction of the fetch-first step: every outcome written, then the rows still held re-read. */
    method WriteTokenOutcomes(operations: seq<Operation>, missing: seq<AnimeId>, outcomes: map<AnimeId, TokenOutcome>,
                              claim: Claim)
      returns (stillHeld: set<nat>)
      requires Valid() && Carried(operations, State(), claim)
      requires forall i, j | 0 <= i < j < |missing| :: missing[i] != missing[j]
      requires forall animeId :: animeId in outcomes <==> animeId in missing
      modifies `log, `animes, `now, `history, `ours
      ensures Valid() && Later(old(State()), State()) && ours == old(ours)
      ensures var timed := Timed(now, FetchMissing(claim, IdsOf(operations), outcomes));
        State() == Next(old(State()), timed) && history == old(history) + [timed]
      ensures log == FetchFirst(old(log), IdsOf(operations), outcomes, claim)
      ensures stillHeld == HeldIds(log, IdsOf(operations), claim)
    {
      hide Run, Next, Confirmations, Traced, Sound, Later, FetchFirst, WriteFetched, WriteOutcome, StoreFetched, Carried;
      ghost var before := State();
      var at := ReadClock();
      FetchNothing(before, IdsOf(operations), claim);
      for i := 0 to |missing|
        invariant log == FetchFirst(before.log, IdsOf(operations), OutcomesOf(outcomes, missing[..i]), claim)
        invariant animes == WriteFetched(before.animes, OutcomesOf(outcomes, missing[..i]), before.log, claim)
        modifies `log, `animes
      {
        ghost var done := OutcomesOf(outcomes, missing[..i]);
        OutcomesNext(outcomes, missing, i);
        FetchRowsNext(before, operations, done, claim, missing[i], outcomes[missing[i]]);
        FetchTokensNext(before.animes, before.log, IdsOf(operations), done, claim, missing[i], outcomes[missing[i]]);
        TokensLeaveRows(log, missing[i], IdsOfAnime(operations, missing[i]), claim, outcomes[missing[i]]);
        ApplyMissingTokenOutcome(missing[i], IdsOfAnime(operations, missing[i]), claim, outcomes[missing[i]]);
      }
      assert OutcomesOf(outcomes, missing[..|missing|]) == outcomes;
      now := at;
      stillHeld := HeldIds(log, IdsOf(operations), claim);
      FetchStep(before, IdsOf(operations), outcomes, claim, at);
      Record(before, Timed(at, FetchMissing(claim, IdsOf(operations), outcomes)));
    }

    /** The transaction of one rating answer, or nothing when the claim lost the row. */
    method SettleSeasonRating(rating: Operation, fate: Fate, claim: Claim)
      returns (confirmed: bool, successors: seq<Operation>)
      requires Valid() && Carried([rating], State(), claim) && rating.row.operation == SEASON_RATING_OPERATION
      modifies `log, `now, `history, `ours
      ensures Valid() && Later(old(State()), State())
      ensures var held := Held(old(log), rating.id, claim);
        && confirmed == (held && fate.Confirm?)
        && ours == (if confirmed then old(ours) + 1 else old(ours))
        && (!held ==> State() == old(State()) && history == old(history) && successors == [])
        && (held ==>
              var timed := Timed(now, SettleRows(claim, map[rating.id := fate]));
              && State() == Next(old(State()), timed) && history == old(history) + [timed]
              && log == SettleRound(old(log), map[rating.id := fate], claim, now)
              && successors == ChainRows(old(log), map[rating.id := fate], claim, now))
    {
      hide Run, Next, Confirmations, Traced, WellFormed, Exclusive, SettleRound, ClaimSuccessors, HeldRows, InQueueOrder,
        SupersededIds, AnimesOf, SuccessorIds;
      ghost var before := State();
      assert Held(log, rating.id, claim) <==> rating.id in HeldIds(log, {rating.id}, claim);
      if HeldIds(log, {rating.id}, claim) == {} {
        return false, [];
      }
      assert Held(log, rating.id, claim) && log[rating.id] == rating.row by {
        var id :| id in HeldIds(log, {rating.id}, claim);
        assert Current([rating][0], log, claim);
      }
      var at := ReadClock();
      ghost var fates := map[rating.id := fate];
      RatingIsSettlement(before.log, rating, fate, claim, at);
      SettleRoundIsChained(before.log, fates, claim, at);
      RowsStep(before, fates, claim, at);
      log := UpdateHeld(log, {rating.id}, claim, fate);
      confirmed, successors := fate.Confirm?, [];
      NoKeyNoSuccessor(Resolved(before.log, fates, claim), claim);
      if fate.Confirm? {
        ResolveSupersededRatings(rating);
        if !ChainIsOver(claim, at) {
          successors := ClaimChainSuccessors({rating.row.animeId}, claim);
        }
      } else {
        NoChainRows(before.log, fates, claim, at);
      }
      now := at;
      Record(before, Timed(at, SettleRows(claim, fates)));
    }

    /** Moves rows the claim still holds to the fate of a failure and releases them; nothing for an empty list. */
    method ReleaseHeld(ids: set<nat>, claim: Claim, fate: Fate)
      requires Valid() && !fate.Confirm?
      modifies `log, `now, `history, `ours
      ensures Valid() && Later(old(State()), State()) && old(history) <= history && ours == old(ours)
      ensures log == UpdateHeld(old(log), ids, claim, fate)
      ensures Handed(old(log), log, claim, ids, {}) && QueuedIds(log) <= QueuedIds(old(log))
      ensures State() == old(State()).(log := log, now := now) && |history| <= |old(history)| + 1
    {
      hide Run, Next, Confirmations, Traced, Sound, SettleRound, ChainRows;
      ReleaseIsSettlement(log, ids, fate, claim, now);
      if ids == {} {
        assert UpdateHeld(log, ids, claim, fate) == log;
        return;
      }
      ghost var before := State();
      var at := ReadClock();
      ReleaseIsSettlement(log, ids, fate, claim, at);
      RowsStep(before, SameFate(ids, fate), claim, at);
      log := UpdateHeld(log, ids, claim, fate);
      now := at;
      Record(before, Timed(at, SettleRows(claim, SameFate(ids, fate))));
    }

    // ----- The snapshot heal -----

    /** Heals one key from the row read before the heal began, by diff and patch. */
    method HealAnimeFromSnapshot(listed: Listed, local: Option<AnimeRow>) returns (wrote: bool)
      modifies `animes
      ensures (animes, wrote) == HealAnime(old(animes), listed, local)
    {
      hide Upsert, ApplyPartial, ApplyToken, ChangedFields, PartialColumns;
      if local.None? {
        animes := Upsert(animes, listed.anime, None, Some(listed.token));
        return true;
      }
      if local.value.token != Some(listed.token) {
        animes := ApplyToken(animes, listed.anime.id, Some(listed.token));
      }
      var changed := DeriveChangedFields(listed.anime, local.value.columns);
      if changed == [] {
        return false;
      }
      var columns, skipped := BuildPartialUpdate(changed, listed.anime);
      animes := ApplyPartial(animes, listed.anime.id, columns, if local.value.guard.Some? then local.value.guard.value else 0);
      return true;
    }

    /** Heals every anime of the bridge's list but those with an un-acked edit; counts the rows it wrote. */
    method ResyncFromBridgeSnapshot(remote: seq<Listed>) returns (healed: nat)
      requires Valid()
      modifies `animes, `now, `history, `ours
      ensures Valid() && Later(old(State()), State())
      ensures healed == HealAll(old(animes), remote, Unacked(log)).1
      ensures HealIsSafe(log, old(animes), animes, remote)
      ensures remote == [] ==> State() == old(State()) && history == old(history)
      ensures remote != [] ==>
        var timed := Timed(now, HealSnapshot(remote));
        State() == Next(old(State()), timed) && history == old(history) + [timed]
    {
      hide Run, Next, Confirmations, Traced, Sound, HealAnime, Unacked, HealIsSafe;
      healed := 0;
      HealAllIsSafe(log, animes, remote);
      if remote == [] {
        return;
      }
      ghost var before := State();
      var at := ReadClock();
      var unacked, localRows := Unacked(log), animes;
      for i := 0 to |remote|
        invariant (animes, healed) == HealAll(localRows, remote[..i], unacked)
        modifies `animes
      {
        assert remote[..i + 1][..i] == remote[..i];
        if remote[i].anime.id in unacked {
          continue;
        }
        var wrote := HealAnimeFromSnapshot(remote[i], LocalRow(localRows, remote[i].anime.id));
        if wrote {
          healed := healed + 1;
        }
      }
      assert remote[..|remote|] == remote;
      now := at;
      HealStep(before, remote, at);
      Record(before, Timed(at, HealSnapshot(remote)));
    }

    // ----- Resolutions the user chooses -----

    /** Keep local: refused while the key is claimed, its given-up edits queued again from a fresh base otherwise. */
    method KeepLocalForAnime(animeId: AnimeId) returns (written: bool)
      requires Valid()
      modifies `log, `animes, `now, `history, `ours
      ensures Valid() && Later(old(State()), State())
      ensures written <==> !KeyClaimed(old(log), animeId, LiveClaimFloor(now))
      ensures var timed := Timed(now, KeepLocalEdits(animeId));
        State() == Next(old(State()), timed) && history == old(history) + [timed]
      ensures !written ==> log == old(log) && animes == old(animes)
      ensures written ==>
        && RowsGoBack(old(log), log, set id | id in old(log) && IsEditOf(old(log)[id], animeId)
             && (old(log)[id].status == DeadLetter || old(log)[id].status == Status.ConflictExhausted))
        && TokenIsCleared(old(animes), animes, animeId)
    {
      hide Run, Next, Confirmations, Traced, Sound, KeepLocal, GivenUpEdits, ApplyToken, RowsGoBack, TokenIsCleared, RatingsOf;
      ghost var before := State();
      KeepingLocalMeans(log, animes, animeId, {});
      var at := ReadClock();
      KeepLocalStep(before, animeId, at);
      written := !KeyClaimed(log, animeId, LiveClaimFloor(at));
      if written {
        log := KeepLocal(log, GivenUpEdits(log, animeId));
        animes := ApplyToken(animes, animeId, None);
      }
      now := at;
      Record(before, Timed(at, KeepLocalEdits(animeId)));
    }

    /** Keep bridge: refused while the key is claimed, its edits dropped for what the bridge holds otherwise. */
    method KeepBridgeForAnime(animeId: AnimeId, onBridge: Option<Listed>) returns (written: bool)
      requires Valid()
      modifies `log, `animes, `now, `history, `ours
      ensures Valid() && Later(old(State()), State())
      ensures written <==> !KeyClaimed(old(log), animeId, LiveClaimFloor(now))
      ensures var timed := Timed(now, KeepBridgeEdits(animeId, onBridge));
        State() == Next(old(State()), timed) && history == old(history) + [timed]
      ensures !written ==> log == old(log) && animes == old(animes)
      ensures written ==>
        && RowsAreGone(old(log), log,
             set id | id in old(log) && IsEditOf(old(log)[id], animeId) && old(log)[id].status != Synced)
        && ((onBridge.Some? ==> onBridge.value.anime.id == animeId) ==>
              TakesBridgeRow(old(animes), animes, animeId, onBridge))
    {
      hide Run, Next, Confirmations, Traced, Sound, HealAnime, ApplyChanges, RowsAreGone, TakesBridgeRow, UnsyncedEdits, RatingsOf;
      ghost var before := State();
      KeepingBridgeMeans(log, animeId, {});
      if onBridge.Some? ==> onBridge.value.anime.id == animeId {
        TakingBridgeMeans(animes, animeId, onBridge);
      }
      var at := ReadClock();
      KeepBridgeStep(before, animeId, onBridge, at);
      written := !KeyClaimed(log, animeId, LiveClaimFloor(at));
      if written {
        log := log - UnsyncedEdits(log, animeId);
        if onBridge.None? {
          var delete := RemoteChange(animeId, Delete, [], None, at);
          DeleteAlwaysWins(animes, delete);
          var tally := ApplyRemoteChanges([delete], MergeContext(map[], {}));
        } else {
          var wrote := HealAnimeFromSnapshot(onBridge.value, LocalRow(animes, animeId));
        }
      }
      now := at;
      Record(before, Timed(at, KeepBridgeEdits(animeId, onBridge)));
    }

    /** The rows of a rating key, matched on the season their payload names. */
    method ReadRatingKeyRowIds(animeId: AnimeId, seasons: set<Option<Json>>, statuses: set<Status>) returns (ids: set<nat>)
      ensures ids == RatingsOf(log, animeId, seasons, statuses)
      ensures ids == set id | id in log && IsRatingOf(log[id], animeId, seasons) && log[id].status in statuses
    {
      ids := {};
      var rows := set id | id in log && log[id].animeId == animeId && log[id].operation == SEASON_RATING_OPERATION
                           && log[id].status in statuses;
      var left := rows;
      while left != {}
        invariant left <= rows
        invariant ids == RatingsOf(log, animeId, seasons, statuses) - left
        decreases |left|
      {
        var id :| id in left;
        if SeasonOf(log[id].payload) in seasons {
          ids := ids + {id};
        }
        left := left - {id};
      }
    }

    method KeepLocalForRating(animeId: AnimeId, seasons: set<Option<Json>>) returns (written: bool)
      requires Valid()
      modifies `log, `now, `history, `ours
      ensures Valid() && Later(old(State()), State())
      ensures written <==> !KeyClaimed(old(log), animeId, LiveClaimFloor(now))
      ensures var timed := Timed(now, KeepLocalRating(animeId, seasons));
        State() == Next(old(State()), timed) && history == old(history) + [timed]
      ensures !written ==> log == old(log)
      ensures written ==>
        RowsGoBack(old(log), log, set id | id in old(log)
          && IsRatingOf(old(log)[id], animeId, seasons) && old(log)[id].status == DeadLetter)
    {
      hide Run, Next, Confirmations, Traced, Sound, KeepLocal, RatingsOf, GivenUpEdits, TokenIsCleared, ApplyToken;
      ghost var before := State();
      KeepingLocalMeans(log, animes, animeId, seasons);
      var at := ReadClock();
      KeepRatingSteps(before, animeId, seasons, at);
      written := !KeyClaimed(log, animeId, LiveClaimFloor(at));
      if written {
        var ids := ReadRatingKeyRowIds(animeId, seasons, {DeadLetter});
        log := KeepLocal(log, ids);
      }
      now := at;
      Record(before, Timed(at, KeepLocalRating(animeId, seasons)));
    }

    method KeepBridgeForRating(animeId: AnimeId, seasons: set<Option<Json>>) returns (written: bool)
      requires Valid()
      modifies `log, `now, `history, `ours
      ensures Valid() && Later(old(State()), State())
      ensures written <==> !KeyClaimed(old(log), animeId, LiveClaimFloor(now))
      ensures var timed := Timed(now, KeepBridgeRating(animeId, seasons));
        State() == Next(old(State()), timed) && history == old(history) + [timed]
      ensures !written ==> log == old(log)
      ensures written ==>
        RowsAreGone(old(log), log, set id | id in old(log) && IsRatingOf(old(log)[id], animeId, seasons)
          && (old(log)[id].status == Pending || old(log)[id].status == Processing || old(log)[id].status == DeadLetter))
    {
      hide Run, Next, Confirmations, Traced, Sound, KeepLocal, RatingsOf, UnsyncedEdits;
      ghost var before := State();
      KeepingBridgeMeans(log, animeId, seasons);
      var at := ReadClock();
      KeepRatingSteps(before, animeId, seasons, at);
      written := !KeyClaimed(log, animeId, LiveClaimFloor(at));
      if written {
        var ids := ReadRatingKeyRowIds(animeId, seasons, {Pending, Processing, DeadLetter});
        log := log - ids;
      }
      now := at;
      Record(before, Timed(at, KeepBridgeRating(animeId, seasons)));
    }
  }

  /** A delete through the merge boundary removes its row, whatever the context. */
  lemma DeleteAlwaysWins(animes: Animes, delete: RemoteChange)
    requires delete.changeType == Delete
    ensures ApplyChanges(animes, [delete], MergeContext(map[], {})) == animes - {delete.recordId}
  {
    assert [delete][..0] == [];
  }

  /** What a pass drops from the staging table, and what it adds. */
  method SplitEntries(entries: seq<Entry>, changes: seq<RemoteChange>, context: MergeContext)
    returns (consumed: set<nat>, kept: seq<RemoteChange>)
    ensures kept == KeptIncoming(entries, changes, context)
    ensures forall k :: k in consumed <==> Consumes(entries, k, changes, context)
  {
    consumed, kept := {}, [];
    for i := 0 to |entries|
      invariant kept == KeptIncoming(entries[..i], changes, context)
      invariant forall k :: k in consumed <==> Consumes(entries[..i], k, changes, context)
    {
      assert entries[..i + 1][..i] == entries[..i];
      var isKept := KeptDeferred(entries[i].change, changes, context);
      ghost var before := consumed;
      if entries[i].staging.None? {
        if isKept {
          kept := kept + [entries[i].change];
        }
      } else if !isKept {
        consumed := consumed + {entries[i].staging.value};
      }
      forall k ensures k in consumed <==> Consumes(entries[..i + 1], k, changes, context) {
        ConsumesOneMore(entries, i, k, changes, context);
      }
    }
    assert entries[..|entries|] == entries;
  }

  /** The animes a claim still speaks for, and the confirmed rows it still holds. */
  method CollectAnswered(operations: seq<Operation>, held: set<nat>, confirmed: seq<nat>)
    returns (animeIds: set<AnimeId>, kept: seq<Operation>)
    requires OnePerAnime(operations)
    ensures CollectedFrom(operations, held, confirmed, animeIds, kept) && OnePerAnime(kept)
  {
    animeIds, kept := {}, [];
    for i := 0 to |operations|
      invariant animeIds == (set k | 0 <= k < i && operations[k].id in held :: operations[k].row.animeId)
      invariant forall k | 0 <= k < |kept| :: kept[k] in operations[..i]
      invariant forall k | 0 <= k < i :: operations[k] in kept <==> operations[k].id in held && operations[k].id in confirmed
      invariant OnePerAnime(kept)
    {
      ghost var before := kept;
      if operations[i].id in held {
        animeIds := animeIds + {operations[i].row.animeId};
        if operations[i].id in confirmed {
          kept := kept + [operations[i]];
        }
      }
      assert operations[..i + 1] == operations[..i] + [operations[i]];
      assert forall k | 0 <= k < i :: operations[k] != operations[i];
      forall k | 0 <= k < |before|
        ensures before[k].id != operations[i].id && before[k].row.animeId != operations[i].row.animeId
      {
        assert before[k] in operations[..i];
      }
    }
  }
}
