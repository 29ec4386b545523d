/** What a reconcile answer means for the edits that were sent: evidence, rejections, tokens and one fate each. */
module ReconcileAnswer {
  import opened Basics
  import opened OutboxTable
  import opened AnimeTable
  import opened MergeBoundary
  import opened Protocol

  /** An outbox row as a runtime read it; its columns may have moved on since. */
  datatype Operation = Operation(id: nat, row: Row)

  datatype AppliedOperation = AppliedOperation(
    animeId: AnimeId,
    operation: string,
    applied: bool,
    modifiedAt: Option<int>,
    reason: Option<string>)

  /** A bridge change on the wire, and the snapshot and field list it maps to. */
  datatype WireChange = WireChange(
    recordId: AnimeId,
    changeType: ChangeType,
    changedFields: seq<string>,
    snapshot: Option<map<string, Json>>,
    knownFields: seq<FieldName>,
    anime: Option<Anime>,
    timestamp: int)

  datatype Response = Response(applied: seq<AppliedOperation>, changes: seq<WireChange>, lastChangelogId: Option<int>)

  const REASON_CONFLICT := "conflict"
  const REASON_UNSUPPORTED_OPERATION := "unsupported_operation"

  function NormalizeChange(change: WireChange): RemoteChange {
    RemoteChange(change.recordId, change.changeType, change.knownFields, change.anime, change.timestamp)
  }

  function NormalizeChanges(changes: seq<WireChange>): seq<RemoteChange> {
    seq(|changes|, i requires 0 <= i < |changes| => NormalizeChange(changes[i]))
  }

  // ----- The payload on the wire -----

  datatype Alias = Alias(legacy: string, english: string)

  const ALIASES: seq<Alias> := [
    Alias("estado", "status"), Alias("nrocapvisto", "episodesWatched"),
    Alias("fechaUltCapVisto", "lastWatchedAt"), Alias("dias", "days")]

  predicate IsLegacy(key: string, aliases: seq<Alias>) { exists i | 0 <= i < |aliases| :: aliases[i].legacy == key }

  function LegacyOf(key: string, aliases: seq<Alias>): Option<string> {
    if aliases == [] then None
    else if aliases[|aliases| - 1].english == key then Some(aliases[|aliases| - 1].legacy)
    else LegacyOf(key, aliases[..|aliases| - 1])
  }

  /** The value a payload sends under `key`: never under a legacy name, its own before its alias's. */
  function WireValue(payload: Payload, key: string, aliases: seq<Alias>): Option<Json> {
    if IsLegacy(key, aliases) then None
    else if key in payload then Some(payload[key])
    else
      var legacy := LegacyOf(key, aliases);
      if legacy.Some? && legacy.value in payload then Some(payload[legacy.value]) else None
  }

  function EnglishNames(aliases: seq<Alias>): set<string> { set i | 0 <= i < |aliases| :: aliases[i].english }

  function Translated(payload: Payload, aliases: seq<Alias>): Payload {
    map key | key in payload.Keys + EnglishNames(aliases) && WireValue(payload, key, aliases).Some? ::
      WireValue(payload, key, aliases).value
  }

  /** What a stored payload sends: the edits' legacy names translated, any other operation as stored. */
  function NormalizedPayload(operation: string, payload: Payload): Payload {
    if operation == ANIME_UPDATE_OPERATION then Translated(payload, ALIASES) else payload
  }

  lemma AliasesAreSeparate(i: nat, j: nat)
    requires i < |ALIASES| && j < |ALIASES|
    ensures ALIASES[i].english != ALIASES[j].legacy
    ensures i != j ==> ALIASES[i].english != ALIASES[j].english && ALIASES[i].legacy != ALIASES[j].legacy
  {
  }

  lemma {:induction false} LegacyOfIsAnAlias(key: string, aliases: seq<Alias>)
    ensures var legacy := LegacyOf(key, aliases);
      if key in EnglishNames(aliases)
      then legacy.Some? && exists i | 0 <= i < |aliases| :: aliases[i] == Alias(legacy.value, key)
      else legacy.None?
  {
    if aliases != [] {
      LegacyOfIsAnAlias(key, aliases[..|aliases| - 1]);
    }
  }

  lemma TranslatedAt(payload: Payload, aliases: seq<Alias>, key: string)
    ensures key in Translated(payload, aliases) <==> WireValue(payload, key, aliases).Some?
    ensures key in Translated(payload, aliases) ==> Translated(payload, aliases)[key] == WireValue(payload, key, aliases).value
  {
    LegacyOfIsAnAlias(key, aliases);
  }

  /** One round of the loop: the alias fills its English key when that is missing, and is always removed. */
  lemma TranslatedNext(payload: Payload, i: nat, key: string)
    requires i < |ALIASES|
    ensures var alias := ALIASES[i];
      var before := WireValue(payload, key, ALIASES[..i]);
      WireValue(payload, key, ALIASES[..i + 1])
      == if key == alias.legacy then None
         else if key == alias.english && before.None? && alias.legacy in payload then Some(payload[alias.legacy])
         else before
  {
    var alias, done := ALIASES[i], ALIASES[..i];
    var next := ALIASES[..i + 1];
    assert next == done + [alias];
    assert next[|next| - 1] == alias && next[..|next| - 1] == done;
    assert IsLegacy(key, next) <==> IsLegacy(key, done) || alias.legacy == key by {
      if alias.legacy == key {
        assert next[i].legacy == key;
      }
      if IsLegacy(key, done) {
        var j :| 0 <= j < |done| && done[j].legacy == key;
        assert next[j].legacy == key;
      }
    }
    LegacyOfIsAnAlias(key, done);
    forall j | 0 <= j < i
      ensures alias.english != done[j].english && alias.english != done[j].legacy
    {
      AliasesAreSeparate(i, j);
    }
    AliasesAreSeparate(i, i);
  }

  method NormalizeLegacyAnimeUpdatePayloadAliases(payload: Payload) returns (normalized: Payload)
    ensures normalized == Translated(payload, ALIASES)
  {
    normalized := payload;
    for i := 0 to |ALIASES|
      invariant forall key ::
        && (key in normalized <==> WireValue(payload, key, ALIASES[..i]).Some?)
        && (key in normalized ==> normalized[key] == WireValue(payload, key, ALIASES[..i]).value)
    {
      var alias := ALIASES[i];
      ghost var was := normalized;
      if alias.english !in normalized && alias.legacy in payload {
        normalized := normalized[alias.english := payload[alias.legacy]];
      }
      normalized := normalized - {alias.legacy};
      AliasesAreSeparate(i, i);
      forall key
        ensures key in normalized <==> WireValue(payload, key, ALIASES[..i + 1]).Some?
        ensures key in normalized ==> normalized[key] == WireValue(payload, key, ALIASES[..i + 1]).value
      {
        TranslatedNext(payload, i, key);
      }
    }
    assert ALIASES[..|ALIASES|] == ALIASES;
    forall key
      ensures key in normalized <==> key in Translated(payload, ALIASES)
      ensures key in normalized ==> normalized[key] == Translated(payload, ALIASES)[key]
    {
      TranslatedAt(payload, ALIASES, key);
    }
  }

  /** No legacy name reaches the bridge, and translating what was already translated changes nothing. */
  lemma TranslationIsIdempotent(payload: Payload)
    ensures var sent := Translated(payload, ALIASES);
      (forall key | key in sent :: !IsLegacy(key, ALIASES)) && Translated(sent, ALIASES) == sent
  {
    var sent := Translated(payload, ALIASES);
    forall key
      ensures key in Translated(sent, ALIASES) <==> key in sent
      ensures key in sent ==> !IsLegacy(key, ALIASES) && Translated(sent, ALIASES)[key] == sent[key]
    {
      TranslatedAt(payload, ALIASES, key);
      TranslatedAt(sent, ALIASES, key);
      LegacyOfIsAnAlias(key, ALIASES);
      if LegacyOf(key, ALIASES).Some? {
        TranslatedAt(payload, ALIASES, LegacyOf(key, ALIASES).value);
      }
    }
  }

  // ----- Confirmation -----

  /** The entry an answer carries for an operation: the first that names its anime and kind. */
  function FirstEntry(applied: seq<AppliedOperation>, animeId: AnimeId, operation: string): Option<AppliedOperation> {
    if applied == [] then None
    else if applied[0].animeId == animeId && applied[0].operation == operation then Some(applied[0])
    else FirstEntry(applied[1..], animeId, operation)
  }

  /** The change shows a field as sent: listed as changed, or its snapshot holds the very value. */
  predicate Shows(change: WireChange, field: string, value: Json) {
    || field in change.changedFields
    || (change.snapshot.Some? && field in change.snapshot.value
        && StrictlyEqual(Some(change.snapshot.value[field]), Some(value)))
  }

  /** A pulled change evidences a payload: it is of the anime, no delete, and shows every field. */
  predicate Evidences(change: WireChange, animeId: AnimeId, payload: Payload) {
    && change.recordId == animeId && change.changeType != Delete
    && forall field | field in payload :: Shows(change, field, payload[field])
  }

  predicate IsOperationConfirmed(operation: Operation, applied: seq<AppliedOperation>, changes: seq<WireChange>) {
    var entry := FirstEntry(applied, operation.row.animeId, operation.row.operation);
    if entry.Some? then entry.value.applied
    else
      var payload := NormalizedPayload(operation.row.operation, operation.row.payload);
      payload != map[] && exists i | 0 <= i < |changes| :: Evidences(changes[i], operation.row.animeId, payload)
  }

  function IdsOf(operations: seq<Operation>): set<nat> { set i | 0 <= i < |operations| :: operations[i].id }

  function AnimeIdsOf(operations: seq<Operation>): set<AnimeId> { set i | 0 <= i < |operations| :: operations[i].row.animeId }

  ghost predicate AnimesDiffer(operations: seq<Operation>) {
    forall i, j | 0 <= i < j < |operations| :: operations[i].row.animeId != operations[j].row.animeId
  }

  /** Each anime once, and each row once: what a round sends. */
  ghost predicate OnePerAnime(operations: seq<Operation>) {
    && AnimesDiffer(operations)
    && forall i, j | 0 <= i < j < |operations| :: operations[i].id != operations[j].id
  }

  method GetConfirmedOperationIds(operations: seq<Operation>, applied: seq<AppliedOperation>, changes: seq<WireChange>)
    returns (confirmed: seq<nat>)
    ensures forall id :: id in confirmed <==>
      exists i | 0 <= i < |operations| :: operations[i].id == id && IsOperationConfirmed(operations[i], applied, changes)
  {
    confirmed := [];
    for i := 0 to |operations|
      invariant forall id :: id in confirmed <==>
        exists k | 0 <= k < i :: operations[k].id == id && IsOperationConfirmed(operations[k], applied, changes)
    {
      if IsOperationConfirmed(operations[i], applied, changes) {
        confirmed := confirmed + [operations[i].id];
      }
    }
  }

  /** The edits the answer gives no evidence for, in the order they were sent. */
  function Unconfirmed(operations: seq<Operation>, response: Response): seq<Operation> {
    if operations == [] then []
    else
      var last := operations[|operations| - 1];
      var before := Unconfirmed(operations[..|operations| - 1], response);
      if IsOperationConfirmed(last, response.applied, response.changes) then before else before + [last]
  }

  lemma {:induction false} UnconfirmedAre(operations: seq<Operation>, response: Response, operation: Operation)
    ensures operation in Unconfirmed(operations, response)
      <==> operation in operations && !IsOperationConfirmed(operation, response.applied, response.changes)
  {
    if operations != [] {
      UnconfirmedAre(operations[..|operations| - 1], response, operation);
      assert operations == operations[..|operations| - 1] + [operations[|operations| - 1]];
    }
  }

  // ----- Rejection -----

  datatype Rejection =
    | Unsupported
    | ConflictProgress(token: int, attempts: nat)
    | ConflictExhausted(token: int, attempts: nat)
    | ConflictMissingToken
    | UnrecognizedReason(reason: Option<string>)

  function ClassifyRejectedOperation(entry: AppliedOperation, stored: Option<int>, attempts: nat): (rejection: Rejection)
    ensures rejection.ConflictExhausted? <==>
      entry.reason == Some(REASON_CONFLICT) && entry.modifiedAt.Some? && entry.modifiedAt == stored
      && attempts + 1 >= CONFLICT_ATTEMPT_CAP
    ensures rejection.ConflictProgress? ==>
      rejection.attempts == (if entry.modifiedAt == stored then attempts + 1 else 0)
      && rejection.attempts < CONFLICT_ATTEMPT_CAP
  {
    if entry.reason == Some(REASON_UNSUPPORTED_OPERATION) then Unsupported
    else if entry.reason != Some(REASON_CONFLICT) then UnrecognizedReason(entry.reason)
    else if entry.modifiedAt.None? then ConflictMissingToken
    else
      var advanced := entry.modifiedAt != stored;
      var next := if advanced then 0 else attempts + 1;
      if !advanced && next >= CONFLICT_ATTEMPT_CAP then Rejection.ConflictExhausted(entry.modifiedAt.value, next)
      else ConflictProgress(entry.modifiedAt.value, next)
  }

  function RejectionKey(animeId: AnimeId, operation: string): string { animeId + ":" + operation }

  /** The rejection an answer holds under a key: the last one. */
  function LastRejected(applied: seq<AppliedOperation>, key: string): Option<AppliedOperation> {
    if applied == [] then None
    else
      var last := applied[|applied| - 1];
      if !last.applied && RejectionKey(last.animeId, last.operation) == key then Some(last)
      else LastRejected(applied[..|applied| - 1], key)
  }

  type Tokens = map<AnimeId, int>

  function TokenFor(tokens: Tokens, animeId: AnimeId): Option<int> {
    if animeId in tokens then Some(tokens[animeId]) else None
  }

  /** What the rejection of an unconfirmed edit came to, if the answer holds one. */
  function RejectionOf(operation: Operation, applied: seq<AppliedOperation>, tokens: Tokens): Option<Rejection> {
    var entry := LastRejected(applied, RejectionKey(operation.row.animeId, operation.row.operation));
    if entry.None? then None
    else Some(ClassifyRejectedOperation(entry.value, TokenFor(tokens, operation.row.animeId), operation.row.attempts))
  }

  /** One write a conflict asks for: the bridge's token, the new count and the status. */
  datatype ConflictOutcome = ConflictOutcome(operation: Operation, token: int, attempts: nat, exhausted: bool)

  predicate GoesBack(rejection: Option<Rejection>) {
    rejection.None? || rejection.value.ConflictMissingToken? || rejection.value.UnrecognizedReason?
  }

  predicate Conflicts(rejection: Option<Rejection>) {
    rejection.Some? && (rejection.value.ConflictProgress? || rejection.value.ConflictExhausted?)
  }

  function OutcomeOf(operation: Operation, rejection: Rejection): ConflictOutcome
    requires Conflicts(Some(rejection))
  {
    ConflictOutcome(operation, rejection.token, rejection.attempts, rejection.ConflictExhausted?)
  }

  /** Sorts the unconfirmed edits of an answer into three buckets, each edit into exactly one. */
  method ClassifyUnconfirmedOperations(unconfirmed: seq<Operation>, applied: seq<AppliedOperation>, tokens: Tokens)
    returns (remaining: seq<nat>, deadLetters: seq<nat>, conflicts: seq<ConflictOutcome>)
    ensures forall id :: id in remaining <==>
      exists i | 0 <= i < |unconfirmed| :: unconfirmed[i].id == id && GoesBack(RejectionOf(unconfirmed[i], applied, tokens))
    ensures forall id :: id in deadLetters <==>
      exists i | 0 <= i < |unconfirmed| :: unconfirmed[i].id == id && RejectionOf(unconfirmed[i], applied, tokens) == Some(Unsupported)
    ensures |remaining| + |deadLetters| + |conflicts| == |unconfirmed|
    ensures conflicts == ConflictOutcomes(unconfirmed, applied, tokens)
  {
    remaining, deadLetters, conflicts := [], [], [];
    for i := 0 to |unconfirmed|
      invariant forall id :: id in remaining <==>
        exists k | 0 <= k < i :: unconfirmed[k].id == id && GoesBack(RejectionOf(unconfirmed[k], applied, tokens))
      invariant forall id :: id in deadLetters <==>
        exists k | 0 <= k < i :: unconfirmed[k].id == id && RejectionOf(unconfirmed[k], applied, tokens) == Some(Unsupported)
      invariant |remaining| + |deadLetters| + |conflicts| == i
      invariant conflicts == ConflictOutcomes(unconfirmed[..i], applied, tokens)
    {
      assert unconfirmed[..i + 1][..i] == unconfirmed[..i];
      var rejection := RejectionOf(unconfirmed[i], applied, tokens);
      if GoesBack(rejection) {
        remaining := remaining + [unconfirmed[i].id];
      } else if rejection.value == Unsupported {
        deadLetters := deadLetters + [unconfirmed[i].id];
      } else {
        conflicts := conflicts + [OutcomeOf(unconfirmed[i], rejection.value)];
      }
    }
    assert unconfirmed[..|unconfirmed|] == unconfirmed;
  }

  function ConflictOutcomes(unconfirmed: seq<Operation>, applied: seq<AppliedOperation>, tokens: Tokens)
    : seq<ConflictOutcome>
  {
    if unconfirmed == [] then []
    else
      var last := unconfirmed[|unconfirmed| - 1];
      var before := ConflictOutcomes(unconfirmed[..|unconfirmed| - 1], applied, tokens);
      var rejection := RejectionOf(last, applied, tokens);
      if Conflicts(rejection) then before + [OutcomeOf(last, rejection.value)] else before
  }

  lemma {:induction false} ConflictOutcomesAre(unconfirmed: seq<Operation>, applied: seq<AppliedOperation>, tokens: Tokens,
                                               outcome: ConflictOutcome)
    ensures outcome in ConflictOutcomes(unconfirmed, applied, tokens)
      <==> outcome.operation in unconfirmed
           && Conflicts(RejectionOf(outcome.operation, applied, tokens))
           && outcome == OutcomeOf(outcome.operation, RejectionOf(outcome.operation, applied, tokens).value)
  {
    if unconfirmed != [] {
      ConflictOutcomesAre(unconfirmed[..|unconfirmed| - 1], applied, tokens, outcome);
      assert unconfirmed == unconfirmed[..|unconfirmed| - 1] + [unconfirmed[|unconfirmed| - 1]];
    }
  }

  // ----- One fate for each edit sent -----

  /** What an answer means for one edit. */
  function FateOf(operation: Operation, response: Response, tokens: Tokens): Fate {
    if IsOperationConfirmed(operation, response.applied, response.changes) then Confirm
    else
      match RejectionOf(operation, response.applied, tokens)
      case None => Return
      case Some(rejection) =>
        match rejection
        case Unsupported => GiveUp(None)
        case ConflictProgress(token, _) => Conflict(Some(token) != TokenFor(tokens, operation.row.animeId))
        case ConflictExhausted(token, _) => Conflict(Some(token) != TokenFor(tokens, operation.row.animeId))
        case ConflictMissingToken => Return
        case UnrecognizedReason(_) => Return
  }

  function FatesOf(operations: seq<Operation>, response: Response, tokens: Tokens): map<nat, Fate> {
    if operations == [] then map[]
    else
      var last := operations[|operations| - 1];
      FatesOf(operations[..|operations| - 1], response, tokens)[last.id := FateOf(last, response, tokens)]
  }

  lemma {:induction false} FatesOfAt(operations: seq<Operation>, response: Response, tokens: Tokens)
    requires OnePerAnime(operations)
    ensures FatesOf(operations, response, tokens).Keys == IdsOf(operations)
    ensures forall i | 0 <= i < |operations| ::
      FatesOf(operations, response, tokens)[operations[i].id] == FateOf(operations[i], response, tokens)
  {
    if operations != [] {
      FatesOfAt(operations[..|operations| - 1], response, tokens);
      assert operations == operations[..|operations| - 1] + [operations[|operations| - 1]];
    }
  }

  /** A settled conflict carries exactly the count and the status its rejection was classified with. */
  lemma FateWritesItsRejection(operation: Operation, response: Response, tokens: Tokens)
    requires FateOf(operation, response, tokens).Conflict?
    ensures var rejection := RejectionOf(operation, response.applied, tokens);
      && Conflicts(rejection)
      && ApplyFate(operation.row, FateOf(operation, response, tokens))
         == operation.row.(status := if rejection.value.ConflictExhausted? then Status.ConflictExhausted else Pending,
                           attempts := rejection.value.attempts,
                           claim := None)
  {
  }

  /** The answer rejects the edit on a token it had already been sent with, for the last time allowed. */
  predicate ConflictsOnceTooOften(operation: Operation, entry: Option<AppliedOperation>, stored: Option<int>) {
    && entry.Some? && entry.value.reason == Some(REASON_CONFLICT) && entry.value.modifiedAt.Some?
    && entry.value.modifiedAt == stored && operation.row.attempts + 1 >= CONFLICT_ATTEMPT_CAP
  }

  /**
   * Where each edit of a round ends, by what the answer says of it: evidence makes it synced, an unsupported operation
   * a dead letter, a third conflict on one token exhausted, and anything else puts it back in the queue. Exactly one of
   * the four happens to every edit still held, it is released in each, and an edit the claim lost is not written.
   */
  lemma EachEditEndsAsAnswered(t: Table, operations: seq<Operation>, response: Response, tokens: Tokens, claim: Claim, i: nat)
    requires OnePerAnime(operations) && i < |operations| && operations[i].id in t
    requires Held(t, operations[i].id, claim) ==> t[operations[i].id] == operations[i].row
    ensures var operation := operations[i];
      var left := Settle(t, FatesOf(operations, response, tokens), claim)[operation.id];
      var confirmed := IsOperationConfirmed(operation, response.applied, response.changes);
      var entry := LastRejected(response.applied, RejectionKey(operation.row.animeId, operation.row.operation));
      var unsupported := entry.Some? && entry.value.reason == Some(REASON_UNSUPPORTED_OPERATION);
      var exhausted := ConflictsOnceTooOften(operation, entry, TokenFor(tokens, operation.row.animeId));
      if !Held(t, operation.id, claim) then left == t[operation.id]
      else
        && left.claim.None?
        && (left.status == Synced <==> confirmed)
        && (left.status == DeadLetter <==> !confirmed && unsupported)
        && (left.status == Status.ConflictExhausted <==> !confirmed && exhausted)
        && (left.status == Pending <==> !confirmed && !unsupported && !exhausted)
        && left.(status := Synced, claim := None, attempts := 0) == operation.row.(status := Synced, claim := None, attempts := 0)
  {
    FatesOfAt(operations, response, tokens);
    var operation := operations[i];
    assert FatesOf(operations, response, tokens)[operation.id] == FateOf(operation, response, tokens);
    hide FatesOf, LastRejected, IsOperationConfirmed;
  }

  // ----- Which entry answers an edit -----

  lemma {:induction false} FirstEntryNamesIt(applied: seq<AppliedOperation>, animeId: AnimeId, operation: string)
    ensures var entry := FirstEntry(applied, animeId, operation);
      if entry.Some?
      then exists i | 0 <= i < |applied| :: applied[i] == entry.value
             && applied[i].animeId == animeId && applied[i].operation == operation
             && forall j | 0 <= j < i :: applied[j].animeId != animeId || applied[j].operation != operation
      else forall i | 0 <= i < |applied| :: applied[i].animeId != animeId || applied[i].operation != operation
  {
    if applied != [] && !(applied[0].animeId == animeId && applied[0].operation == operation) {
      FirstEntryNamesIt(applied[1..], animeId, operation);
      assert forall i | 1 <= i < |applied| :: applied[i] == applied[1..][i - 1];
      if FirstEntry(applied, animeId, operation).Some? {
        var i :| 0 <= i < |applied[1..]| && applied[1..][i] == FirstEntry(applied[1..], animeId, operation).value
                 && forall j | 0 <= j < i :: applied[1..][j].animeId != animeId || applied[1..][j].operation != operation;
        assert applied[i + 1] == applied[1..][i];
      }
    }
  }

  predicate RejectsUnder(entry: AppliedOperation, key: string) {
    !entry.applied && RejectionKey(entry.animeId, entry.operation) == key
  }

  /** The rejection found under a key is the last one there, and none is found only if there is none. */
  lemma {:induction false} LastRejectedIsUnderKey(applied: seq<AppliedOperation>, key: string)
    ensures var entry := LastRejected(applied, key);
      if entry.Some?
      then exists i | 0 <= i < |applied| ::
        applied[i] == entry.value && RejectsUnder(applied[i], key) && forall j | i < j < |applied| :: !RejectsUnder(applied[j], key)
      else forall i | 0 <= i < |applied| :: !RejectsUnder(applied[i], key)
  {
    if applied != [] {
      var front, last := applied[..|applied| - 1], applied[|applied| - 1];
      LastRejectedIsUnderKey(front, key);
      assert forall i | 0 <= i < |front| :: applied[i] == front[i];
      if RejectsUnder(last, key) {
        assert applied[|applied| - 1] == LastRejected(applied, key).value;
      } else if LastRejected(applied, key).Some? {
        var i :| 0 <= i < |front| && front[i] == LastRejected(front, key).value && RejectsUnder(front[i], key)
                 && forall j | i < j < |front| :: !RejectsUnder(front[j], key);
        assert applied[i] == LastRejected(applied, key).value;
      }
    }
  }

  /** With a colon in neither operation, keys are equal exactly when the names are, whatever the ids hold. */
  lemma KeysMatchNames(animeId: AnimeId, operation: string, other: AnimeId, kind: string)
    requires ':' !in operation && ':' !in kind
    ensures RejectionKey(other, kind) == RejectionKey(animeId, operation) <==> other == animeId && kind == operation
  {
    if RejectionKey(other, kind) == RejectionKey(animeId, operation) {
      var key := RejectionKey(animeId, operation);
      assert key[|animeId|] == ':' && key[|other|] == ':';
      assert key[|animeId| + 1..] == operation && key[|other| + 1..] == kind;
      assert forall i | |animeId| < i < |key| :: key[i] == operation[i - |animeId| - 1];
      assert forall i | |other| < i < |key| :: key[i] == kind[i - |other| - 1];
      assert key[..|animeId|] == animeId && key[..|other|] == other;
    }
  }

  predicate Rejects(entry: AppliedOperation, animeId: AnimeId, operation: string) {
    !entry.applied && entry.animeId == animeId && entry.operation == operation
  }

  /**
   * What decides the fate of an unconfirmed edit. With plain operations it is the last entry that names the edit and
   * rejects it; and none is found only if every entry that names it was applied.
   */
  lemma RejectionIsTheLastNamingIt(applied: seq<AppliedOperation>, animeId: AnimeId, operation: string)
    requires ':' !in operation && forall i | 0 <= i < |applied| :: ':' !in applied[i].operation
    ensures var entry := LastRejected(applied, RejectionKey(animeId, operation));
      if entry.Some?
      then exists i | 0 <= i < |applied| ::
        applied[i] == entry.value && Rejects(applied[i], animeId, operation)
        && forall j | i < j < |applied| :: !Rejects(applied[j], animeId, operation)
      else forall i | 0 <= i < |applied| :: !Rejects(applied[i], animeId, operation)
  {
    var key := RejectionKey(animeId, operation);
    LastRejectedIsUnderKey(applied, key);
    forall i | 0 <= i < |applied| ensures RejectsUnder(applied[i], key) <==> Rejects(applied[i], animeId, operation) {
      KeysMatchNames(animeId, operation, applied[i].animeId, applied[i].operation);
    }
  }

  /** The key names one pair only. */
  ghost predicate NamesOnePair(animeId: AnimeId, operation: string) {
    forall other: AnimeId, kind: string | RejectionKey(other, kind) == RejectionKey(animeId, operation) ::
      other == animeId && kind == operation
  }

  /** A key is exact if and only if there is no colon in it but its own. */
  lemma KeyIsExactlyWhen(animeId: AnimeId, operation: string)
    ensures NamesOnePair(animeId, operation) <==> ':' !in animeId && ':' !in operation
  {
    var key := RejectionKey(animeId, operation);
    if ':' in animeId {
      var i :| 0 <= i < |animeId| && animeId[i] == ':';
      AnotherPair(animeId[..i], animeId[i + 1..], operation);
      assert animeId == animeId[..i] + ":" + animeId[i + 1..];
      assert RejectionKey(animeId[..i], animeId[i + 1..] + ":" + operation) == key;
    } else if ':' in operation {
      var i :| 0 <= i < |operation| && operation[i] == ':';
      AnotherPair(animeId, operation[..i], operation[i + 1..]);
      assert operation == operation[..i] + ":" + operation[i + 1..];
      assert RejectionKey(animeId + ":" + operation[..i], operation[i + 1..]) == key;
    } else {
      forall other: AnimeId, kind: string | RejectionKey(other, kind) == key
        ensures other == animeId && kind == operation
      {
        assert forall i | 0 <= i < |key| && key[i] == ':' :: i == |animeId|;
        assert key[|other|] == ':';
        assert key[..|animeId|] == animeId && key[..|other|] == other;
        assert key[|animeId| + 1..] == operation && key[|other| + 1..] == kind;
      }
    }
  }

  /** Three names around two colons read as an anime and an operation in two ways. */
  lemma AnotherPair(a: string, b: string, c: string)
    ensures RejectionKey(a, b + ":" + c) == RejectionKey(a + ":" + b, c)
  {
    assert a + ":" + (b + ":" + c) == (a + ":" + b) + ":" + c;
  }

  /** With a colon in an id, one anime's rejection is read as another's. */
  lemma ColonsMixKeysUp(token: int)
    ensures var entry := AppliedOperation("x", "y:update", false, Some(token), Some(REASON_CONFLICT));
      LastRejected([entry], RejectionKey("x:y", "update")) == Some(entry)
  {
    var entry := AppliedOperation("x", "y:update", false, Some(token), Some(REASON_CONFLICT));
    var key := RejectionKey("x:y", "update");
    assert [entry][|[entry]| - 1] == entry;
    assert RejectionKey(entry.animeId, entry.operation) == "x:y:update";
    assert key == "x:y:update";
  }

  /** An entry can be read as the answer to an edit it does not name: some anime and plain operation share its key. */
  ghost predicate CanBeMisread(entry: AppliedOperation) {
    exists animeId: AnimeId, operation: string ::
      && ':' !in operation
      && RejectionKey(animeId, operation) == RejectionKey(entry.animeId, entry.operation)
      && !(animeId == entry.animeId && operation == entry.operation)
  }

  /** The edits a runtime queues have a plain operation, so an entry is misread exactly when its own has a colon. */
  lemma EntryIsMisreadExactlyWhen(entry: AppliedOperation)
    ensures CanBeMisread(entry) <==> ':' in entry.operation
  {
    if ':' !in entry.operation {
      forall animeId: AnimeId, operation: string
        | ':' !in operation && RejectionKey(animeId, operation) == RejectionKey(entry.animeId, entry.operation)
        ensures animeId == entry.animeId && operation == entry.operation
      {
        KeysMatchNames(animeId, operation, entry.animeId, entry.operation);
      }
    } else {
      var i := LastColon(entry.operation);
      var animeId, operation := entry.animeId + ":" + entry.operation[..i], entry.operation[i + 1..];
      AnotherPair(entry.animeId, entry.operation[..i], operation);
      assert entry.operation == entry.operation[..i] + ":" + operation;
      assert RejectionKey(animeId, operation) == RejectionKey(entry.animeId, entry.operation);
      assert ':' !in operation && operation != entry.operation;
    }
  }

  function LastColon(text: string): (i: nat)
    requires ':' in text
    ensures i < |text| && text[i] == ':' && ':' !in text[i + 1..]
  {
    if text[|text| - 1] == ':' then |text| - 1
    else
      var i := LastColon(text[..|text| - 1]);
      assert text[i + 1..] == text[..|text| - 1][i + 1..] + [text[|text| - 1]];
      i
  }

  /**
   * Matching is unambiguous. In a round with one row per anime, an entry of the answer whose operation holds no colon
   * answers at most one of the edits sent, whatever their ids hold: only an edit it names is rejected through it.
   */
  lemma EntriesAnswerOneEdit(operations: seq<Operation>, entry: AppliedOperation, i: nat, j: nat)
    requires OnePerAnime(operations) && i < |operations| && j < |operations|
    requires ':' !in entry.operation
    requires forall k | 0 <= k < |operations| :: ':' !in operations[k].row.operation
    requires RejectionKey(entry.animeId, entry.operation)
      == RejectionKey(operations[i].row.animeId, operations[i].row.operation)
    requires RejectionKey(entry.animeId, entry.operation)
        == RejectionKey(operations[j].row.animeId, operations[j].row.operation)
      || entry.animeId == operations[j].row.animeId
    ensures i == j && entry.animeId == operations[i].row.animeId && entry.operation == operations[i].row.operation
  {
    KeysMatchNames(operations[i].row.animeId, operations[i].row.operation, entry.animeId, entry.operation);
    KeysMatchNames(operations[j].row.animeId, operations[j].row.operation, entry.animeId, entry.operation);
  }

  // ----- Tokens -----

  function ConfirmedTokens(applied: seq<AppliedOperation>): Tokens {
    if applied == [] then map[]
    else
      var last := applied[|applied| - 1];
      var before := ConfirmedTokens(applied[..|applied| - 1]);
      if last.applied && last.modifiedAt.Some? then before[last.animeId := last.modifiedAt.value] else before
  }

  /** The token an applied entry carries is stored, a `0` like any other; the anime's last entry wins. */
  method CollectConfirmedAnimeTokens(applied: seq<AppliedOperation>) returns (tokens: Tokens)
    ensures tokens == ConfirmedTokens(applied)
    ensures forall i | 0 <= i < |applied| && applied[i].applied && applied[i].modifiedAt.Some? :: applied[i].animeId in tokens
    ensures forall animeId | animeId in tokens ::
      exists i | 0 <= i < |applied| :: IsLastToken(applied, i, animeId) && applied[i].modifiedAt == Some(tokens[animeId])
  {
    tokens := map[];
    for i := 0 to |applied|
      invariant tokens == ConfirmedTokens(applied[..i])
      invariant forall k | 0 <= k < i && applied[k].applied && applied[k].modifiedAt.Some? :: applied[k].animeId in tokens
      invariant forall animeId | animeId in tokens ::
        exists k | 0 <= k < i :: IsLastToken(applied[..i], k, animeId) && applied[k].modifiedAt == Some(tokens[animeId])
    {
      assert applied[..i + 1][..i] == applied[..i];
      ghost var was := tokens;
      if !applied[i].applied || applied[i].modifiedAt.None? {
        assert tokens == ConfirmedTokens(applied[..i + 1]);
      } else {
        tokens := tokens[applied[i].animeId := applied[i].modifiedAt.value];
      }
      forall animeId | animeId in tokens
        ensures exists k | 0 <= k < i + 1 ::
          IsLastToken(applied[..i + 1], k, animeId) && applied[k].modifiedAt == Some(tokens[animeId])
      {
        if applied[i].animeId == animeId && applied[i].applied && applied[i].modifiedAt.Some? {
          assert IsLastToken(applied[..i + 1], i, animeId);
        } else {
          assert animeId in was;
          var k :| 0 <= k < i && IsLastToken(applied[..i], k, animeId) && applied[k].modifiedAt == Some(was[animeId]);
          assert IsLastToken(applied[..i + 1], k, animeId);
        }
      }
    }
    assert applied[..|applied|] == applied;
  }

  /** The entry at `i` carries the anime's confirmed token and no later entry does. */
  ghost predicate IsLastToken(applied: seq<AppliedOperation>, i: nat, animeId: AnimeId) {
    && i < |applied| && applied[i].animeId == animeId && applied[i].applied && applied[i].modifiedAt.Some?
    && forall j | i < j < |applied| ::
         !(applied[j].animeId == animeId && applied[j].applied && applied[j].modifiedAt.Some?)
  }

  function RebasesOf(outcomes: seq<ConflictOutcome>): seq<Rebase> {
    seq(|outcomes|, i requires 0 <= i < |outcomes| =>
      Rebase(outcomes[i].operation.id, outcomes[i].operation.row.animeId, outcomes[i].token))
  }

  // ----- The request -----

  /** One edit on the wire; an absent base sends no key at all. */
  datatype SentOperation = SentOperation(
    animeId: AnimeId,
    operation: string,
    payload: Payload,
    createdAt: int,
    base: Option<int>)

  datatype Request = Request(lastChangelogId: int, operations: seq<SentOperation>)

  function BuildReconcileRequestBody(lastChangelogId: int, operations: seq<Operation>, tokens: Tokens): Request {
    Request(lastChangelogId, seq(|operations|, i requires 0 <= i < |operations| =>
      var row := operations[i].row;
      SentOperation(row.animeId, row.operation, NormalizedPayload(row.operation, row.payload), row.createdAt,
                    TokenFor(tokens, row.animeId))))
  }
}
