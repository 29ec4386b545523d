/** Why the transactions of a cycle do what its transcript says. */
module TranscriptFacts {
  import opened Basics
  import opened OutboxTable
  import opened AnimeTable
  import opened MergeBoundary
  import opened MergeOutcome
  import opened Protocol
  import opened OutboxSafety
  import opened OutboxHistory
  import opened ReconcileAnswer
  import opened CycleRelations
  import opened StoreFacts
  import opened PassSafety
  import opened Transcript

  // ----- The request -----

  lemma OneMoreInOrder(part: seq<Operation>, whole: seq<Operation>, last: Operation)
    requires InOrderOf(part, whole)
    ensures InOrderOf(part, whole + [last]) && InOrderOf(part + [last], whole + [last])
  {
    var longer := whole + [last];
    assert forall k | 0 <= k < |whole| :: longer[k] == whole[k];
    forall i, j | 0 <= i < j < |part| ensures ComesBefore(longer, part[i], part[j]) {
      var a, b :| 0 <= a < b < |whole| && whole[a] == part[i] && whole[b] == part[j];
      assert longer[a] == part[i] && longer[b] == part[j];
    }
    forall i | 0 <= i < |part| ensures ComesBefore(longer, part[i], last) {
      var a :| 0 <= a < |whole| && whole[a] == part[i];
      assert longer[a] == part[i] && longer[|whole|] == last;
    }
    hide ComesBefore;
  }

  lemma AllInOrder(whole: seq<Operation>)
    ensures InOrderOf(whole, whole)
  {
  }

  lemma InOrderTwice(a: seq<Operation>, b: seq<Operation>, c: seq<Operation>)
    requires InOrderOf(a, b) && InOrderOf(b, c)
    ensures InOrderOf(a, c)
  {
    forall i, j | 0 <= i < j < |a| ensures ComesBefore(c, a[i], a[j]) {
      var k, m :| 0 <= k < m < |b| && b[k] == a[i] && b[m] == a[j];
      assert ComesBefore(c, b[k], b[m]);
    }
  }

  lemma AliasOf(i: nat, payload: Payload)
    requires i < |ALIASES|
    ensures SendsUnder(payload, Translated(payload, ALIASES), ALIASES[i].legacy, ALIASES[i].english)
  {
    var alias := ALIASES[i];
    TranslatedAt(payload, ALIASES, alias.legacy);
    TranslatedAt(payload, ALIASES, alias.english);
    LegacyOfIsAnAlias(alias.english, ALIASES);
    assert alias.english in EnglishNames(ALIASES);
    forall j | 0 <= j < |ALIASES|
      ensures alias.english != ALIASES[j].legacy && (ALIASES[j].english == alias.english ==> j == i)
    {
      AliasesAreSeparate(i, j);
    }
  }

  lemma OtherKeyStays(payload: Payload, key: string)
    requires forall i | 0 <= i < |ALIASES| :: key != ALIASES[i].legacy && key != ALIASES[i].english
    ensures var sent := Translated(payload, ALIASES);
      (key in sent <==> key in payload) && (key in sent ==> sent[key] == payload[key])
  {
    TranslatedAt(payload, ALIASES, key);
    LegacyOfIsAnAlias(key, ALIASES);
    assert key !in EnglishNames(ALIASES);
  }

  lemma TranslationMeans(payload: Payload)
    ensures IsTranslated(payload, Translated(payload, ALIASES))
  {
    var sent := Translated(payload, ALIASES);
    AliasOf(0, payload);
    AliasOf(1, payload);
    AliasOf(2, payload);
    AliasOf(3, payload);
    hide Translated, SendsUnder;
    forall key: string | key !in TRANSLATED_KEYS
      ensures (key in sent <==> key in payload) && (key in sent ==> sent[key] == payload[key])
    {
      OtherKeyStays(payload, key);
    }
  }

  lemma RequestMeans(lastChangelogId: int, operations: seq<Operation>, animes: Animes,
                     fetched: map<AnimeId, AnimeResult>, tokens: Tokens)
    requires forall operation | operation in operations ::
      operation.row.animeId in tokens && IsBase(animes, fetched, operation.row.animeId, tokens[operation.row.animeId])
    ensures var request := BuildReconcileRequestBody(lastChangelogId, operations, tokens);
      request.lastChangelogId == lastChangelogId && RequestCarries(request, operations, animes, fetched, tokens)
  {
    hide IsBase, IsTranslated, Translated;
    forall i | 0 <= i < |operations|
      ensures Carries(BuildReconcileRequestBody(lastChangelogId, operations, tokens).operations[i], operations[i].row,
                      Some(tokens[operations[i].row.animeId]))
    {
      assert operations[i] in operations;
      TranslationMeans(operations[i].row.payload);
    }
  }

  // ----- One row's answer -----

  lemma EvidenceMeans(operation: Operation, response: Response)
    ensures IsOperationConfirmed(operation, response.applied, response.changes)
      <==> IsEvidenced(operation.row, NormalizedPayload(operation.row.operation, operation.row.payload), response)
  {
    var row, applied := operation.row, response.applied;
    var payload := NormalizedPayload(row.operation, row.payload);
    FirstEntryNamesIt(applied, row.animeId, row.operation);
    hide NormalizedPayload, FirstEntry;
    assert forall i | 0 <= i < |applied| ::
      Names(applied[i], row) <==> applied[i].animeId == row.animeId && applied[i].operation == row.operation;
    forall i | 0 <= i < |response.changes|
      ensures Evidences(response.changes[i], row.animeId, payload)
        <==> (response.changes[i].recordId == row.animeId && response.changes[i].changeType != Delete
              && forall field | field in payload :: ShowsField(response.changes[i], field, payload[field]))
    {
      assert forall field | field in payload ::
        Shows(response.changes[i], field, payload[field]) <==> ShowsField(response.changes[i], field, payload[field]);
    }
  }

  lemma RejectionMeans(row: Row, applied: seq<AppliedOperation>)
    ensures var entry := LastRejected(applied, RejectionKey(row.animeId, row.operation));
      && (entry.None? <==> IsNotRejected(row, applied))
      && (forall i: nat | IsRejectedBy(row, applied, i) :: entry == Some(applied[i]))
      && (entry.Some? ==> exists i: nat :: IsRejectedBy(row, applied, i))
  {
    var key := RejectionKey(row.animeId, row.operation);
    LastRejectedIsUnderKey(applied, key);
    assert forall i | 0 <= i < |applied| :: RejectsUnder(applied[i], key) <==> RejectsRow(applied[i], row);
    var entry := LastRejected(applied, key);
    hide LastRejected;
    if entry.Some? {
      var i :| 0 <= i < |applied| && applied[i] == entry.value && RejectsUnder(applied[i], key)
               && forall j | i < j < |applied| :: !RejectsUnder(applied[j], key);
      assert IsRejectedBy(row, applied, i);
    }
  }

  /** A fate takes its row where the answer says. */
  lemma FateMeans(operation: Operation, response: Response, tokens: Tokens)
    requires operation.row.animeId in tokens
    ensures EndsAsAnswered(operation.row, ApplyFate(operation.row, FateOf(operation, response, tokens)),
                           NormalizedPayload(operation.row.operation, operation.row.payload),
                           tokens[operation.row.animeId], response)
  {
    EvidenceMeans(operation, response);
    RejectionMeans(operation.row, response.applied);
    hide NormalizedPayload, IsOperationConfirmed, IsEvidenced, LastRejected, IsRejectedBy, IsNotRejected;
  }

  // ----- One settlement -----

  /** A confirmed row passes exactly the rows it supersedes, among those not answered. */
  lemma PassedAre(t: Table, fates: map<nat, Fate>, claim: Claim, id: nat)
    requires id in t
    ensures var settled := Settle(t, fates, claim);
      var done := ConfirmedIds(t, fates, claim);
      && (id in SupersededIds(settled, done) <==> exists other | other in done && other in settled :: Supersedes(settled, other, id))
      && (!(id in fates && Held(t, id, claim)) ==>
            (id in SupersededIds(settled, done) <==> exists other | other in done :: IsPassed(t, id, other)))
  {
    var settled := Settle(t, fates, claim);
    forall other | other in ConfirmedIds(t, fates, claim)
      ensures other in settled && (!(id in fates && Held(t, id, claim)) ==> (Supersedes(settled, other, id) <==> IsPassed(t, id, other)))
    {
    }
  }

  /** The one row of its anime among those answered is not passed. */
  lemma AnsweredRowIsKept(t: Table, fates: map<nat, Fate>, claim: Claim, id: nat)
    requires id in fates && Held(t, id, claim)
    requires forall other | other in ConfirmedIds(t, fates, claim) && t[other].animeId == t[id].animeId :: other == id
    ensures id in Resolved(t, fates, claim) && Resolved(t, fates, claim)[id] == ApplyFate(t[id], fates[id])
  {
    var settled := Settle(t, fates, claim);
    PassedAre(t, fates, claim, id);
    hide SupersededIds;
    assert settled[id].animeId == t[id].animeId;
    forall other | other in ConfirmedIds(t, fates, claim) ensures other in settled && !Supersedes(settled, other, id) {
      assert settled[other].animeId == t[other].animeId;
    }
  }

  /** What a settlement leaves of a row it keeps. */
  lemma SettledIs(t: Table, fates: map<nat, Fate>, claim: Claim, now: int)
    ensures var after, resolved := SettleRound(t, fates, claim, now), Resolved(t, fates, claim);
      && after.Keys == resolved.Keys
      && forall id | id in resolved ::
           after[id] == if now < claim.claimedAt + 20_000 && id in NextRows(t, fates, claim)
                        then resolved[id].(status := Processing, claim := Some(claim)) else resolved[id]
  {
    SettleRoundIsChained(t, fates, claim, now);
    hide SettleRound, Resolved;
    SuccessorsAreClaimed(Resolved(t, fates, claim), AnimesOf(t, ConfirmedIds(t, fates, claim)), claim);
    hide ClaimSuccessors, AnimesOf, ConfirmedIds, SuccessorIds;
  }

  /** No row the claim held before is handed on, with one row of its anime answered. */
  lemma NextWasPending(t: Table, fates: map<nat, Fate>, claim: Claim, id: nat)
    requires Held(t, id, claim)
    requires forall other | other in ConfirmedIds(t, fates, claim) && t[other].animeId == t[id].animeId :: other == id
    ensures id !in NextRows(t, fates, claim)
  {
    ResolvedAt(t, fates, claim, id);
    hide Resolved;
    if id in fates && id in ConfirmedIds(t, fates, claim) {
      assert ApplyFate(t[id], fates[id]).status == Synced;
    } else {
      assert t[id].animeId !in AnimesOf(t, ConfirmedIds(t, fates, claim));
    }
  }

  lemma AnsweredRowStays(t: Table, fates: map<nat, Fate>, claim: Claim, now: int, id: nat)
    requires id in fates && Held(t, id, claim)
    requires forall other | other in ConfirmedIds(t, fates, claim) && t[other].animeId == t[id].animeId :: other == id
    ensures var after := SettleRound(t, fates, claim, now);
      id in after && after[id] == ApplyFate(t[id], fates[id])
  {
    AnsweredRowIsKept(t, fates, claim, id);
    SettledIs(t, fates, claim, now);
    NextWasPending(t, fates, claim, id);
    hide SettleRound, Resolved, NextRows, ConfirmedIds, ApplyFate;
  }

  lemma ResolvedOther(t: Table, fates: map<nat, Fate>, claim: Claim, id: nat)
    requires id in t && !(id in fates && Held(t, id, claim))
    ensures var resolved := Resolved(t, fates, claim);
      && (id in resolved <==> !exists other | other in ConfirmedIds(t, fates, claim) :: IsPassed(t, id, other))
      && (id in resolved ==> resolved[id] == t[id])
  {
    PassedAre(t, fates, claim, id);
    hide SupersededIds, IsPassed;
  }

  /** Whether the chain takes a row on, seen from the table it leaves. */
  lemma NextOfIs(t: Table, fates: map<nat, Fate>, claim: Claim, now: int, id: nat)
    requires id in Resolved(t, fates, claim) && id in t && Resolved(t, fates, claim)[id] == t[id]
    ensures id in NextRows(t, fates, claim)
      <==> (SharesAnime(t, id, ConfirmedIds(t, fates, claim)) && IsNextOf(t, SettleRound(t, fates, claim, now), id))
  {
    var resolved, after := Resolved(t, fates, claim), SettleRound(t, fates, claim, now);
    SettledIs(t, fates, claim, now);
    hide SettleRound, Resolved, ConfirmedIds;
    forall other | other in resolved
      ensures after[other].animeId == resolved[other].animeId && after[other].createdAt == resolved[other].createdAt
      ensures Queued(after[other]) == Queued(resolved[other])
    {
      assert other in NextRows(t, fates, claim) ==> Queued(resolved[other]);
    }
    assert t[id].animeId in AnimesOf(t, ConfirmedIds(t, fates, claim)) <==> SharesAnime(t, id, ConfirmedIds(t, fates, claim));
    hide SharesAnime, AnimesOf;
  }

  /** A settlement deletes what its confirmed rows pass and claims the next row of their animes, and no more. */
  lemma OthersMean(t: Table, fates: map<nat, Fate>, claim: Claim, now: int)
    ensures OthersFollow(t, SettleRound(t, fates, claim, now), claim, now, HeldIds(t, fates.Keys, claim),
                         ConfirmedIds(t, fates, claim))
  {
    var after, resolved := SettleRound(t, fates, claim, now), Resolved(t, fates, claim);
    SettledIs(t, fates, claim, now);
    assert resolved.Keys <= t.Keys;
    hide SettleRound, Resolved, IsNextOf, IsPassed, SharesAnime, NextRows;
    forall id | id in t && id !in HeldIds(t, fates.Keys, claim)
      ensures id in resolved <==> !exists other | other in ConfirmedIds(t, fates, claim) :: IsPassed(t, id, other)
      ensures id in resolved ==>
        resolved[id] == t[id]
        && (id in NextRows(t, fates, claim) <==> SharesAnime(t, id, ConfirmedIds(t, fates, claim)) && IsNextOf(t, after, id))
    {
      ResolvedOther(t, fates, claim, id);
      if id in resolved {
        NextOfIs(t, fates, claim, now, id);
      }
    }
  }

  /** Within its budget a claim is live: with exclusive claims no other row of a confirmed anime is under it. */
  lemma HeldIsOneOfEach(t: Table, fates: map<nat, Fate>, claim: Claim, now: int, id: nat)
    requires Exclusive(t, now) && !ChainIsOver(claim, now) && Held(t, id, claim)
    ensures forall other | other in ConfirmedIds(t, fates, claim) && t[other].animeId == t[id].animeId :: other == id
  {
  }

  lemma OrderedRows(t: Table, after: Table, ids: seq<nat>, claim: Claim)
    requires forall i | 0 <= i < |ids| :: ids[i] in t && Held(after, ids[i], claim) && after[ids[i]].createdAt == t[ids[i]].createdAt
    requires forall i, j | 0 <= i < j < |ids| :: Before(t, ids[i], ids[j])
    ensures var rows := HeldRows(after, ids, claim);
      forall i, j | 0 <= i < j < |rows| ::
        rows[i].row.createdAt < rows[j].row.createdAt
        || (rows[i].row.createdAt == rows[j].row.createdAt && rows[i].id < rows[j].id)
  {
    AllHeldRows(after, ids, claim);
    hide HeldRows;
    assert forall i, j | 0 <= i < j < |ids| :: Before(t, ids[i], ids[j]);
  }

  lemma ChainIsOrdered(t: Table, fates: map<nat, Fate>, claim: Claim, now: int)
    requires !ChainIsOver(claim, now)
    ensures var rows := ChainRows(t, fates, claim, now);
      forall i, j | 0 <= i < j < |rows| ::
        rows[i].row.createdAt < rows[j].row.createdAt
        || (rows[i].row.createdAt == rows[j].row.createdAt && rows[i].id < rows[j].id)
  {
    var after, resolved := SettleRound(t, fates, claim, now), Resolved(t, fates, claim);
    var ids := InQueueOrder(resolved, NextRows(t, fates, claim));
    assert ChainRows(t, fates, claim, now) == HeldRows(after, ids, claim);
    assert NextRows(t, fates, claim) <= resolved.Keys;
    SettledIs(t, fates, claim, now);
    hide SettleRound, Resolved, InQueueOrder, NextRows, HeldRows, ChainRows;
    forall i | 0 <= i < |ids|
      ensures ids[i] in resolved && Held(after, ids[i], claim) && after[ids[i]].createdAt == resolved[ids[i]].createdAt
    {
      assert ids[i] in ids && ids[i] in NextRows(t, fates, claim);
    }
    OrderedRows(resolved, after, ids, claim);
  }

  lemma ChainWasNotHeld(t: Table, fates: map<nat, Fate>, claim: Claim, now: int, id: nat)
    requires Exclusive(t, now) && !ChainIsOver(claim, now)
    requires id in NextRows(t, fates, claim)
    ensures !Held(t, id, claim)
  {
    hide NextRows, ConfirmedIds;
    if Held(t, id, claim) {
      HeldIsOneOfEach(t, fates, claim, now, id);
      NextWasPending(t, fates, claim, id);
    }
  }

  lemma ChainIds(t: Table, fates: map<nat, Fate>, claim: Claim, now: int)
    requires !ChainIsOver(claim, now)
    ensures IdsOf(ChainRows(t, fates, claim, now)) <= NextRows(t, fates, claim)
  {
    SettleRoundIsChained(t, fates, claim, now);
    hide SettleRound, Resolved, InQueueOrder, HeldRows, SuccessorIds, ClaimSuccessors;
    ChainIsWon(Resolved(t, fates, claim), AnimesOf(t, ConfirmedIds(t, fates, claim)), claim);
  }

  lemma HandsOnFrom(t: Table, after: Table, claim: Claim, ids: set<nat>, rows: seq<Operation>)
    requires Handed(t, after, claim, ids, IdsOf(rows))
    requires forall i | 0 <= i < |rows| ::
      Held(after, rows[i].id, claim) && !Held(t, rows[i].id, claim) && rows[i].row == after[rows[i].id]
    requires forall i, j | 0 <= i < j < |rows| ::
      rows[i].row.createdAt < rows[j].row.createdAt
      || (rows[i].row.createdAt == rows[j].row.createdAt && rows[i].id < rows[j].id)
    ensures HandsOn(t, after, claim, rows)
  {
  }

  /** The successors of a settlement are the rows newly under the claim. */
  lemma SuccessorsMean(t: Table, fates: map<nat, Fate>, claim: Claim, now: int)
    requires Exclusive(t, now)
    ensures HandsOn(t, SettleRound(t, fates, claim, now), claim, ChainRows(t, fates, claim, now))
  {
    var after, rows := SettleRound(t, fates, claim, now), ChainRows(t, fates, claim, now);
    assert ChainIsOver(claim, now) ==> rows == [];
    hide SettleRound, ChainRows, AnimesOf, QueuedIds, OnePerAnime, NextRows, HandsOn, Exclusive, Held;
    SettlementKeeps(t, fates, claim, now);
    hide Handed;
    if !ChainIsOver(claim, now) {
      ChainIsOrdered(t, fates, claim, now);
      ChainIds(t, fates, claim, now);
      forall i | 0 <= i < |rows| ensures !Held(t, rows[i].id, claim) {
        assert rows[i].id in IdsOf(rows);
        ChainWasNotHeld(t, fates, claim, now, rows[i].id);
      }
    }
    HandsOnFrom(t, after, claim, fates.Keys, rows);
  }

  // ----- One answer -----

  /** What a round sent and what came back, as its message. */
  predicate IsExchange(message: Message, operations: seq<Operation>, response: Response, tokens: Tokens) {
    && message.Exchange? && message.sent == operations && message.bases == tokens && message.answer == Accepted(response)
    && message.request == BuildReconcileRequestBody(message.request.lastChangelogId, operations, tokens)
    && forall i | 0 <= i < |operations| :: operations[i].row.animeId in tokens
  }

  lemma SentOnce(db: Db, operations: seq<Operation>, fates: map<nat, Fate>, claim: Claim, i: nat)
    requires Carried(operations, db, claim) && fates.Keys == IdsOf(operations)
    requires i < |operations| && Held(db.log, operations[i].id, claim)
    ensures db.log[operations[i].id] == operations[i].row
    ensures forall other | other in ConfirmedIds(db.log, fates, claim) && db.log[other].animeId == operations[i].row.animeId ::
      other == operations[i].id
  {
    assert Current(operations[i], db.log, claim);
    forall other | other in ConfirmedIds(db.log, fates, claim) && db.log[other].animeId == operations[i].row.animeId
      ensures other == operations[i].id
    {
      var j :| 0 <= j < |operations| && operations[j].id == other;
      assert Current(operations[j], db.log, claim);
    }
  }

  lemma RowsMean(before: Db, operations: seq<Operation>, response: Response, tokens: Tokens, claim: Claim, now: int,
                 message: Message)
    requires Carried(operations, before, claim) && OnePerAnime(operations)
    requires IsExchange(message, operations, response, tokens)
    ensures RowsFollow(before.log, SettleRound(before.log, FatesOf(operations, response, tokens), claim, now), claim, message)
  {
    var fates := FatesOf(operations, response, tokens);
    FatesOfAt(operations, response, tokens);
    hide FatesOf, SettleRound, EndsAsAnswered, ConfirmedIds, ApplyFate, FateOf, NormalizedPayload, Carried, OnePerAnime;
    forall i | 0 <= i < |operations| && Held(before.log, operations[i].id, claim)
      ensures before.log[operations[i].id] == operations[i].row
      ensures var after := SettleRound(before.log, fates, claim, now);
        operations[i].id in after
        && EndsAsAnswered(operations[i].row, after[operations[i].id], message.request.operations[i].payload,
                          tokens[operations[i].row.animeId], response)
    {
      SentOnce(before, operations, fates, claim, i);
      AnsweredRowStays(before.log, fates, claim, now, operations[i].id);
      FateMeans(operations[i], response, tokens);
    }
  }

  lemma DoneMeans(before: Db, operations: seq<Operation>, response: Response, tokens: Tokens, claim: Claim, message: Message)
    requires Carried(operations, before, claim) && OnePerAnime(operations)
    requires IsExchange(message, operations, response, tokens)
    ensures DoneBy(before.log, claim, operations, message.request, response)
      == ConfirmedIds(before.log, FatesOf(operations, response, tokens), claim)
  {
    var fates := FatesOf(operations, response, tokens);
    FatesOfAt(operations, response, tokens);
    hide FatesOf, NormalizedPayload, IsEvidenced, Carried, OnePerAnime, IsOperationConfirmed;
    forall i | 0 <= i < |operations|
      ensures operations[i].id in fates
      ensures fates[operations[i].id].Confirm?
        <==> IsEvidenced(operations[i].row, message.request.operations[i].payload, response)
    {
      EvidenceMeans(operations[i], response);
    }
  }

  // ----- The tokens of an answer -----

  lemma {:induction false} TokensAreCarried(applied: seq<AppliedOperation>, animeId: AnimeId)
    ensures animeId in ConfirmedTokens(applied) <==> exists i | 0 <= i < |applied| :: CarriesToken(applied[i], animeId)
  {
    if applied != [] {
      var front := applied[..|applied| - 1];
      TokensAreCarried(front, animeId);
      assert forall i | 0 <= i < |front| :: applied[i] == front[i];
    }
  }

  lemma {:induction false} LastTokenIs(applied: seq<AppliedOperation>, animeId: AnimeId, i: nat)
    requires IsConfirmedToken(applied, animeId, i)
    ensures animeId in ConfirmedTokens(applied) && applied[i].modifiedAt == Some(ConfirmedTokens(applied)[animeId])
  {
    var front := applied[..|applied| - 1];
    if i < |front| {
      assert !CarriesToken(applied[|front|], animeId);
      LastTokenIs(front, animeId, i);
    }
  }

  /** A token written for a row the claim holds reads last; a row it holds none for keeps its own. */
  lemma {:induction false} RebasedAt(animes: Animes, rebases: seq<Rebase>, t: Table, claim: Claim, animeId: AnimeId, token: int)
    requires animeId in animes
    ensures var after := WriteRebases(animes, rebases, t, claim);
      && after.Keys == animes.Keys && after[animeId] == animes[animeId].(token := after[animeId].token)
      && ((forall i | 0 <= i < |rebases| && rebases[i].animeId == animeId :: !Held(t, rebases[i].id, claim)) ==>
            after[animeId] == animes[animeId])
      && ((forall i | 0 <= i < |rebases| && rebases[i].animeId == animeId && Held(t, rebases[i].id, claim) ::
             rebases[i].token == token)
          && (exists i | 0 <= i < |rebases| :: rebases[i].animeId == animeId && Held(t, rebases[i].id, claim))
          ==> after[animeId].token == Some(token))
  {
    if rebases != [] {
      var front := rebases[..|rebases| - 1];
      RebasedAt(animes, front, t, claim, animeId, token);
      assert forall i | 0 <= i < |front| :: rebases[i] == front[i];
      var middle := WriteRebases(animes, front, t, claim);
      hide Held;
      if !exists i | 0 <= i < |front| :: front[i].animeId == animeId && Held(t, front[i].id, claim) {
        assert forall i | 0 <= i < |front| && front[i].animeId == animeId :: !Held(t, front[i].id, claim);
      }
    }
  }

  function AnswerRebases(operations: seq<Operation>, response: Response, tokens: Tokens): seq<Rebase> {
    RebasesOf(ConflictOutcomes(Unconfirmed(operations, response), response.applied, tokens))
  }

  /** The conflict an answer finds an edit in, if it does. */
  predicate RebasesEdit(operation: Operation, response: Response, token: int) {
    var entry := LastRejected(response.applied, RejectionKey(operation.row.animeId, operation.row.operation));
    && !IsOperationConfirmed(operation, response.applied, response.changes)
    && entry.Some? && Rebases(entry.value) && entry.value.modifiedAt == Some(token)
  }

  lemma RebaseIsOf(operations: seq<Operation>, response: Response, tokens: Tokens, k: nat)
    requires k < |AnswerRebases(operations, response, tokens)|
    ensures var rebase := AnswerRebases(operations, response, tokens)[k];
      exists i | 0 <= i < |operations| ::
        && operations[i].id == rebase.id && operations[i].row.animeId == rebase.animeId
        && RebasesEdit(operations[i], response, rebase.token)
  {
    var rest := Unconfirmed(operations, response);
    var outcome := ConflictOutcomes(rest, response.applied, tokens)[k];
    ConflictOutcomesAre(rest, response.applied, tokens, outcome);
    UnconfirmedAre(operations, response, outcome.operation);
    hide Unconfirmed, ConflictOutcomes, IsOperationConfirmed, LastRejected;
    var i :| 0 <= i < |operations| && operations[i] == outcome.operation;
  }

  lemma RebaseIsThere(operations: seq<Operation>, response: Response, tokens: Tokens, i: nat, token: int)
    requires i < |operations| && RebasesEdit(operations[i], response, token)
    ensures Rebase(operations[i].id, operations[i].row.animeId, token) in AnswerRebases(operations, response, tokens)
  {
    var rest := Unconfirmed(operations, response);
    UnconfirmedAre(operations, response, operations[i]);
    var rejection := RejectionOf(operations[i], response.applied, tokens);
    hide Unconfirmed, IsOperationConfirmed, LastRejected;
    var outcome := OutcomeOf(operations[i], rejection.value);
    ConflictOutcomesAre(rest, response.applied, tokens, outcome);
    hide ConflictOutcomes;
    var outcomes := ConflictOutcomes(rest, response.applied, tokens);
    var k :| 0 <= k < |outcomes| && outcomes[k] == outcome;
    assert AnswerRebases(operations, response, tokens)[k] == Rebase(operations[i].id, operations[i].row.animeId, token);
  }

  /** The token an anime of a row still held is left with by the re-basing writes. */
  lemma RebasedMeans(before: Db, animes: Animes, operations: seq<Operation>, response: Response, tokens: Tokens, claim: Claim,
                     i: nat)
    requires OnePerAnime(operations) && i < |operations| && operations[i].row.animeId in animes
    requires Held(before.log, operations[i].id, claim)
    ensures var after := WriteRebases(animes, AnswerRebases(operations, response, tokens), before.log, claim);
      var animeId := operations[i].row.animeId;
      && animeId in after
      && (forall token | RebasesEdit(operations[i], response, token) :: after[animeId].token == Some(token))
      && ((forall token :: !RebasesEdit(operations[i], response, token)) ==> after[animeId] == animes[animeId])
  {
    var rebases, animeId := AnswerRebases(operations, response, tokens), operations[i].row.animeId;
    forall k | 0 <= k < |rebases| && rebases[k].animeId == animeId
      ensures RebasesEdit(operations[i], response, rebases[k].token)
    {
      RebaseIsOf(operations, response, tokens, k);
      hide AnswerRebases, RebasesEdit, WriteRebases;
      var j :| 0 <= j < |operations| && operations[j].id == rebases[k].id && operations[j].row.animeId == animeId
               && RebasesEdit(operations[j], response, rebases[k].token);
      assert j == i;
    }
    RebasedAt(animes, rebases, before.log, claim, animeId, 0);
    forall token | RebasesEdit(operations[i], response, token)
      ensures WriteRebases(animes, rebases, before.log, claim)[animeId].token == Some(token)
    {
      RebaseIsThere(operations, response, tokens, i, token);
      assert forall other | RebasesEdit(operations[i], response, other) :: other == token;
      hide AnswerRebases, RebasesEdit, WriteRebases;
      RebasedAt(animes, rebases, before.log, claim, animeId, token);
    }
  }

  lemma UntouchedByRebases(before: Db, animes: Animes, operations: seq<Operation>, response: Response, tokens: Tokens,
                           claim: Claim, animeId: AnimeId)
    requires animeId in animes
    requires !exists i | 0 <= i < |operations| :: operations[i].row.animeId == animeId && Held(before.log, operations[i].id, claim)
    ensures var after := WriteRebases(animes, AnswerRebases(operations, response, tokens), before.log, claim);
      animeId in after && after[animeId] == animes[animeId]
  {
    var rebases := AnswerRebases(operations, response, tokens);
    forall k | 0 <= k < |rebases| && rebases[k].animeId == animeId ensures !Held(before.log, rebases[k].id, claim) {
      RebaseIsOf(operations, response, tokens, k);
    }
    hide AnswerRebases, WriteRebases;
    RebasedAt(animes, rebases, before.log, claim, animeId, 0);
  }

  lemma TokenMeans(before: Db, merged: Animes, operations: seq<Operation>, response: Response, tokens: Tokens, claim: Claim,
                   written: Animes, i: nat)
    requires OnePerAnime(operations) && i < |operations| && operations[i].row.animeId in merged
    requires Held(before.log, operations[i].id, claim)
    requires var animeId, confirmed := operations[i].row.animeId, ConfirmedTokens(response.applied);
      animeId in written
      && written[animeId].token == if animeId in confirmed then Some(confirmed[animeId]) else merged[animeId].token
    ensures var after := WriteRebases(written, AnswerRebases(operations, response, tokens), before.log, claim);
      var animeId := operations[i].row.animeId;
      animeId in after
      && TokenFollows(merged[animeId].token, after[animeId].token, operations[i].row,
                      NormalizedPayload(operations[i].row.operation, operations[i].row.payload), response)
  {
    var row, applied := operations[i].row, response.applied;
    var payload := NormalizedPayload(row.operation, row.payload);
    var entry := LastRejected(applied, RejectionKey(row.animeId, row.operation));
    RebasedMeans(before, written, operations, response, tokens, claim, i);
    EvidenceMeans(operations[i], response);
    RejectionMeans(row, applied);
    TokensAreCarried(applied, row.animeId);
    hide NormalizedPayload, IsOperationConfirmed, IsEvidenced, LastRejected, IsRejectedBy, IsNotRejected, WriteRebases,
      AnswerRebases, OnePerAnime, ConfirmedTokens, IsConfirmedToken, CarriesToken, Held;
    forall k: nat | IsConfirmedToken(applied, row.animeId, k)
      ensures row.animeId in ConfirmedTokens(applied) && applied[k].modifiedAt == Some(ConfirmedTokens(applied)[row.animeId])
    {
      LastTokenIs(applied, row.animeId, k);
    }
    if !IsEvidenced(row, payload, response) && entry.Some? && Rebases(entry.value) {
      assert RebasesEdit(operations[i], response, entry.value.modifiedAt.value);
    } else {
      assert forall token :: !RebasesEdit(operations[i], response, token);
    }
  }

  /** The token writes of an answer, over what its merge pass left. */
  lemma TokensMean(before: Db, merged: Animes, operations: seq<Operation>, response: Response, tokens: Tokens, claim: Claim,
                   message: Message)
    requires Carried(operations, before, claim) && OnePerAnime(operations)
    requires IsExchange(message, operations, response, tokens)
    ensures var confirmed := ConfirmedTokens(response.applied);
      var held := HeldAnimes(before.log, FatesOf(operations, response, tokens), claim);
      var written := WriteTokens(merged, map id | id in confirmed && id in held :: confirmed[id]);
      TokensFollow(before.log, merged, WriteRebases(written, AnswerRebases(operations, response, tokens), before.log, claim),
                   claim, operations, message.request, response)
  {
    var confirmed := ConfirmedTokens(response.applied);
    var held := HeldAnimes(before.log, FatesOf(operations, response, tokens), claim);
    var written := WriteTokens(merged, map id | id in confirmed && id in held :: confirmed[id]);
    var after := WriteRebases(written, AnswerRebases(operations, response, tokens), before.log, claim);
    HeldAnimesAreTheirs(before, operations, response, tokens, claim);
    forall id | id in merged ensures id in written && written[id] == merged[id].(token := written[id].token) {
    }
    RebasesKeepKeys(written, AnswerRebases(operations, response, tokens), before.log, claim);
    hide WriteRebases, AnswerRebases, HeldAnimes, FatesOf, ConfirmedTokens, TokenFollows, NormalizedPayload, OnePerAnime, Carried,
      Held;
    forall i | 0 <= i < |operations| && Held(before.log, operations[i].id, claim) && operations[i].row.animeId in merged
      ensures TokenFollows(merged[operations[i].row.animeId].token, after[operations[i].row.animeId].token,
                           operations[i].row, message.request.operations[i].payload, response)
    {
      assert operations[i].row.animeId in held;
      TokenMeans(before, merged, operations, response, tokens, claim, written, i);
    }
    forall id | id in merged
                && !exists i | 0 <= i < |operations| :: operations[i].row.animeId == id && Held(before.log, operations[i].id, claim)
      ensures after[id] == merged[id]
    {
      assert id !in held;
      UntouchedByRebases(before, written, operations, response, tokens, claim, id);
    }
  }

  lemma HeldAnimesAreTheirs(before: Db, operations: seq<Operation>, response: Response, tokens: Tokens, claim: Claim)
    requires Carried(operations, before, claim) && OnePerAnime(operations)
    ensures forall id ::
      id in HeldAnimes(before.log, FatesOf(operations, response, tokens), claim)
      <==> (exists i | 0 <= i < |operations| ::
              operations[i].row.animeId == id && Held(before.log, operations[i].id, claim))
  {
    var fates := FatesOf(operations, response, tokens);
    FatesOfAt(operations, response, tokens);
    hide FatesOf;
    forall i | 0 <= i < |operations| && Held(before.log, operations[i].id, claim)
      ensures operations[i].row.animeId in HeldAnimes(before.log, fates, claim)
    {
      assert Current(operations[i], before.log, claim);
      assert operations[i].id in fates;
    }
    forall id | id in HeldAnimes(before.log, fates, claim)
      ensures exists i | 0 <= i < |operations| :: operations[i].row.animeId == id && Held(before.log, operations[i].id, claim)
    {
      var other :| other in fates && Held(before.log, other, claim) && before.log[other].animeId == id;
      var i :| 0 <= i < |operations| && operations[i].id == other;
      assert Current(operations[i], before.log, claim);
    }
  }

  lemma {:induction false} RebasesKeepKeys(animes: Animes, rebases: seq<Rebase>, t: Table, claim: Claim)
    ensures var after := WriteRebases(animes, rebases, t, claim);
      && after.Keys == animes.Keys
      && forall id | id in animes :: after[id] == animes[id].(token := after[id].token)
  {
    if rebases != [] {
      RebasesKeepKeys(animes, rebases[..|rebases| - 1], t, claim);
    }
  }

  /** The pulled changes of an answer go through one pass, its tokens over what that leaves. */
  lemma ChangesMean(before: Db, after: Db, operations: seq<Operation>, response: Response, tokens: Tokens, claim: Claim,
                    message: Message)
    requires Carried(operations, before, claim) && OnePerAnime(operations)
    requires IsExchange(message, operations, response, tokens)
    requires var (merged, kept) := Pass(before.animes, before.staged, NormalizeChanges(response.changes), Unacked(before.log));
      var confirmed := ConfirmedTokens(response.applied);
      var held := HeldAnimes(before.log, FatesOf(operations, response, tokens), claim);
      after.staged == kept
      && after.animes == WriteRebases(WriteTokens(merged, map id | id in confirmed && id in held :: confirmed[id]),
                                      AnswerRebases(operations, response, tokens), before.log, claim)
    ensures ChangesFollow(before, after, claim, operations, message.request, response)
  {
    var changes := NormalizeChanges(response.changes);
    var (merged, kept) := Pass(before.animes, before.staged, changes, Unacked(before.log));
    assert ReadsAs(response.changes, changes);
    if AllCoherent(before.staged) && AllCoherent(changes) {
      PassIsSafe(before.log, before.animes, before.staged, changes);
    }
    TokensMean(before, merged, operations, response, tokens, claim, message);
    hide Pass, Unacked, UnsentEditsAreSafe, TokensFollow, ReadsAs, HeldAnimes, FatesOf, WriteRebases, AnswerRebases,
      ConfirmedTokens, WriteTokens, NormalizeChanges;
  }

  lemma AnswerStepParts(before: Db, at: int, operations: seq<Operation>, response: Response, tokens: Tokens, sent: int,
                        pairingId: nat, claim: Claim)
    ensures var after := Next(before, Timed(at, AnswerStep(operations, response, tokens, sent, pairingId, claim)));
      var (merged, kept) := Pass(before.animes, before.staged, NormalizeChanges(response.changes), Unacked(before.log));
      var confirmed := ConfirmedTokens(response.applied);
      var held := HeldAnimes(before.log, FatesOf(operations, response, tokens), claim);
      && after.log == SettleRound(before.log, FatesOf(operations, response, tokens), claim, at)
      && after.nextId == before.nextId && after.now == at && after.staged == kept
      && after.animes == WriteRebases(WriteTokens(merged, map id | id in confirmed && id in held :: confirmed[id]),
                                      AnswerRebases(operations, response, tokens), before.log, claim)
      && CursorFollows(before.pairing, after.pairing, pairingId, sent, response.lastChangelogId)
  {
    hide Pass, Unacked, ConfirmedTokens, FatesOf, SettleRound, HeldAnimes, WriteTokens, WriteRebases, NormalizeChanges,
      Unconfirmed, ConflictOutcomes, RebasesOf;
  }

  /** The state after an answer is the one its step leads to. */
  ghost predicate IsAnswerOf(before: Db, after: Db, operations: seq<Operation>, response: Response, tokens: Tokens, sent: int,
                             pairingId: nat, claim: Claim)
  {
    after == Next(before, Timed(after.now, AnswerStep(operations, response, tokens, sent, pairingId, claim)))
  }

  lemma AnswerLog(before: Db, after: Db, operations: seq<Operation>, response: Response, tokens: Tokens, sent: int,
                  pairingId: nat, claim: Claim)
    requires IsAnswerOf(before, after, operations, response, tokens, sent, pairingId, claim)
    ensures after.log == SettleRound(before.log, FatesOf(operations, response, tokens), claim, after.now)
  {
    AnswerStepParts(before, after.now, operations, response, tokens, sent, pairingId, claim);
    hide Next, AnswerStep, WriteRebases, WriteTokens, CursorFollows, HeldAnimes, ConfirmedTokens, Unacked, SettleRound, FatesOf;
  }

  /** The one transaction of an answer does what the answer says. */
  lemma AnswerMeans(before: Db, operations: seq<Operation>, response: Response, tokens: Tokens, pairingId: nat,
                    claim: Claim, message: Message)
    requires Carried(operations, before, claim) && OnePerAnime(operations)
    requires IsExchange(message, operations, response, tokens)
    requires message.answered.db == before && message.closed.at == message.answered.at + 1
    requires IsAnswerOf(before, message.closed.db, operations, response, tokens, message.request.lastChangelogId, pairingId, claim)
    ensures IsApplied(message, claim, pairingId)
  {
    var at := message.closed.db.now;
    AnswerStepParts(before, at, operations, response, tokens, message.request.lastChangelogId, pairingId, claim);
    hide IsAnswerOf;
    RowsMean(before, operations, response, tokens, claim, at, message);
    DoneMeans(before, operations, response, tokens, claim, message);
    OthersMean(before.log, FatesOf(operations, response, tokens), claim, at);
    FatesOfAt(operations, response, tokens);
    ChangesMean(before, message.closed.db, operations, response, tokens, claim, message);
    hide Pass, Unacked, ConfirmedTokens, FatesOf, SettleRound, HeldAnimes, WriteTokens, WriteRebases, NormalizeChanges,
      AnswerRebases, RowsFollow, OthersFollow, ChangesFollow, CursorFollows, DoneBy, ConfirmedIds, HeldIds, IdsOf, OnePerAnime,
      Carried, NormalizedPayload;
  }

  // ----- Ratings and releases -----

  lemma RatingMeans(before: Db, after: Db, rating: Operation, status: Option<int>, fate: Fate, claim: Claim)
    requires Carried([rating], before, claim) && Held(before.log, rating.id, claim)
    requires forall row: Row :: EndsAsPosted(row, ApplyFate(row, fate), status)
    requires fate.Confirm? <==> status == Some(204)
    requires after.log == SettleRound(before.log, map[rating.id := fate], claim, after.now)
    ensures before.log[rating.id] == rating.row && rating.id in after.log
    ensures EndsAsPosted(rating.row, after.log[rating.id], status)
    ensures OthersFollow(before.log, after.log, claim, after.now, {rating.id}, if status == Some(204) then {rating.id} else {})
  {
    var fates := map[rating.id := fate];
    assert Current([rating][0], before.log, claim);
    AnsweredRowStays(before.log, fates, claim, after.now, rating.id);
    OthersMean(before.log, fates, claim, after.now);
    assert HeldIds(before.log, fates.Keys, claim) == {rating.id};
    assert ConfirmedIds(before.log, fates, claim) == if fate.Confirm? then {rating.id} else {};
    hide SettleRound, OthersFollow, EndsAsPosted, ApplyFate;
  }

  lemma ReleaseMeans(before: Db, after: Db, ids: set<nat>, claim: Claim, fate: Fate, status: Status)
    requires (fate == Return && status == Pending) || (fate == GiveUp(None) && status == DeadLetter)
    requires after.log == UpdateHeld(before.log, ids, claim, fate) && after == before.(log := after.log, now := after.now)
    ensures IsReleased(before, after, ids, claim, status)
  {
  }

  // ----- The transcript -----

  lemma WasLonger(origin: Db, history: seq<Timed>, longer: seq<Timed>, moment: Moment)
    requires history <= longer && Was(origin, history, moment)
    ensures Was(origin, longer, moment)
  {
    assert longer[..moment.at] == history[..moment.at];
  }

  lemma PartLonger(message: Message, claim: Claim, origin: Db, history: seq<Timed>, longer: seq<Timed>)
    requires history <= longer && IsPartOf(message, claim, origin, history)
    ensures IsPartOf(message, claim, origin, longer)
  {
    hide Run, WritesFetched, Foreign;
    WasLonger(origin, history, longer, message.answered);
    WasLonger(origin, history, longer, message.closed);
    if message.Exchange? {
      WasLonger(origin, history, longer, message.read);
    }
  }

  /** What was told stays told, and what the others do after it belongs to it. */
  lemma {:induction false} TellsLonger(messages: seq<Message>, claim: Claim, pairingId: nat, origin: Db, history: seq<Timed>,
                                       longer: seq<Timed>, from: nat, middle: nat, to: nat)
    requires history <= longer && Tells(messages, claim, pairingId, origin, history, from, middle)
    requires OnlyOthers(longer, middle, to)
    ensures Tells(messages, claim, pairingId, origin, longer, from, to)
  {
    hide IsPartOf, IsConcluded, Foreign;
    if messages == [] {
    } else {
      var last := messages[|messages| - 1];
      TellsLonger(messages[..|messages| - 1], claim, pairingId, origin, history, longer, from, last.began, last.began);
      PartLonger(last, claim, origin, history, longer);
    }
  }

  /** Two transcripts, one after the other, are one. */
  lemma {:induction false} TellsTwice(first: seq<Message>, second: seq<Message>, claim: Claim, pairingId: nat, origin: Db,
                                      history: seq<Timed>, longer: seq<Timed>, from: nat, middle: nat, to: nat)
    requires history <= longer && Tells(first, claim, pairingId, origin, history, from, middle)
    requires Tells(second, claim, pairingId, origin, longer, middle, to)
    ensures Tells(first + second, claim, pairingId, origin, longer, from, to)
  {
    hide IsPartOf, IsConcluded, OnlyOthers;
    if second == [] {
      assert first + second == first;
      TellsLonger(first, claim, pairingId, origin, history, longer, from, middle, to);
    } else {
      var last, front := second[|second| - 1], second[..|second| - 1];
      TellsTwice(first, front, claim, pairingId, origin, history, longer, from, middle, last.began);
      assert (first + second)[..|first + second| - 1] == first + front;
    }
  }

  lemma {:induction false} RequestsTwice(first: seq<Message>, second: seq<Message>)
    ensures RequestsOf(first + second) == RequestsOf(first) + RequestsOf(second)
  {
    if second == [] {
      assert first + second == first;
    } else {
      var front := second[..|second| - 1];
      RequestsTwice(first, front);
      assert (first + second)[..|first + second| - 1] == first + front;
    }
  }

  lemma PostedOneMore(messages: seq<Message>, message: Message, ratings: seq<Operation>, i: nat)
    requires i < |ratings| && message.Post? && message.rating == ratings[i] && InOrderOf(PostedIn(messages), ratings[..i])
    ensures InOrderOf(PostedIn(messages + [message]), ratings[..i + 1])
  {
    var all := messages + [message];
    assert all[..|all| - 1] == messages && all[|all| - 1] == message;
    OneMoreInOrder(PostedIn(messages), ratings[..i], ratings[i]);
    assert ratings[..i + 1] == ratings[..i] + [ratings[i]];
    hide InOrderOf;
  }

  lemma PostedSkips(messages: seq<Message>, ratings: seq<Operation>, i: nat)
    requires i < |ratings| && InOrderOf(PostedIn(messages), ratings[..i])
    ensures InOrderOf(PostedIn(messages), ratings[..i + 1])
  {
    OneMoreInOrder(PostedIn(messages), ratings[..i], ratings[i]);
    assert ratings[..i + 1] == ratings[..i] + [ratings[i]];
    hide InOrderOf;
  }

  lemma NothingCounted()
    ensures Counted([], 0, 0)
  {
  }

  lemma {:induction false} CountedTwice(first: seq<Message>, second: seq<Message>)
    ensures SentIn(first + second) == SentIn(first) + SentIn(second)
    ensures LeftIn(first + second) == LeftIn(first) + LeftIn(second)
  {
    hide SentBy, LeftBy;
    if second == [] {
      assert first + second == first;
    } else {
      var front := second[..|second| - 1];
      CountedTwice(first, front);
      assert (first + second)[..|first + second| - 1] == first + front;
    }
  }

  lemma CountsJoin(first: seq<Message>, second: seq<Message>, sent: nat, left: nat, more: nat, rest: nat)
    requires Counted(first, sent, left) && Counted(second, more, rest)
    ensures Counted(first + second, sent + more, left + rest)
  {
    hide SentIn, LeftIn;
    CountedTwice(first, second);
  }

  lemma CountedOne(message: Message)
    ensures Counted([message], SentBy(message), LeftBy(message))
  {
    hide SentBy, LeftBy;
    assert [message][..0] == [] && [message][0] == message;
    assert SentIn([message]) == SentIn([message][..0]) + SentBy(message);
    assert LeftIn([message]) == LeftIn([message][..0]) + LeftBy(message);
  }

  lemma RequestsOfOne(message: Message)
    ensures RequestsOf([message]) == if message.Exchange? then [message.request] else []
  {
    assert [message][..0] == [];
  }

  /** The moments of one exchange, from what each of its parts did. */
  lemma ExchangeIsPart(message: Message, claim: Claim, origin: Db, prepared: seq<Timed>, history: seq<Timed>)
    requires message.Exchange? && prepared <= history
    requires Was(origin, prepared, message.read) && OnlyOthers(prepared, message.began, message.read.at)
    requires forall k | message.read.at <= k < |prepared| ::
      Foreign(prepared[k].step) || WritesFetched(prepared[k].step, claim, message.fetched)
    requires OnlyOthers(history, |prepared|, message.answered.at)
    requires Was(origin, history, message.answered) && Was(origin, history, message.closed)
    requires message.answered.at <= message.closed.at <= message.answered.at + 1
    ensures IsPartOf(message, claim, origin, history)
  {
    hide Run, WritesFetched, Foreign;
    WasLonger(origin, prepared, history, message.read);
  }

  lemma TellsOne(message: Message, claim: Claim, pairingId: nat, origin: Db, history: seq<Timed>, to: nat)
    requires IsPartOf(message, claim, origin, history) && IsConcluded(message, claim, pairingId)
    requires message.began <= |history| && OnlyOthers(history, message.closed.at, to)
    ensures Tells([message], claim, pairingId, origin, history, message.began, to)
  {
    hide IsPartOf, IsConcluded, Foreign;
    assert [message][..0] == [];
  }
}
