/**
 * What a cycle says to the bridge and what each answer does: every message with the moments of the run around it, and
 * the rows, tokens, staged changes and cursor it leaves, written out.
 */
module Transcript {
  import opened Basics
  import opened OutboxTable
  import opened AnimeTable
  import opened MergeBoundary
  import opened MergeOutcome
  import opened Protocol
  import opened ReconcileAnswer
  import opened CycleRelations
  import opened PassSafety

  /** What a reconcile request comes to: no answer, a refusal, one that does not parse, or an answer. */
  datatype ReconcileResult = Unanswered | Refused(status: int) | Malformed | Accepted(response: Response)

  /** What asking for one anime comes to. */
  datatype AnimeResult = NoAnswer | Http(status: int, ok: bool, token: Option<int>)

  /** A state of the run and how many steps had been taken. */
  datatype Moment = Moment(at: nat, db: Db)

  /** The body of one rating; a value the payload does not carry is left out. */
  datatype RatingBody = RatingBody(animeId: AnimeId, nota: Option<Json>, ratedAt: Option<Json>, seasonId: Option<Json>)

  /**
   * One thing a cycle does under its claim: a reconcile request, a rating posted, or the release of rows. `closed` is
   * `answered` after the message's own transaction, if it made one.
   */
  datatype Message =
    | Exchange(began: nat, read: Moment, fetched: map<AnimeId, AnimeResult>, bases: Tokens, sent: seq<Operation>,
               request: Request, answer: ReconcileResult, answered: Moment, closed: Moment)
    | Post(began: nat, rating: Operation, body: RatingBody, status: Option<int>, answered: Moment, closed: Moment)
    | Release(began: nat, ids: set<nat>, answered: Moment, closed: Moment)

  ghost predicate Was(origin: Db, history: seq<Timed>, moment: Moment) {
    moment.at <= |history| && Run(origin, history[..moment.at]) == moment.db
  }

  // ----- The request -----

  ghost predicate ComesBefore(whole: seq<Operation>, first: Operation, second: Operation) {
    exists i, j | 0 <= i < j < |whole| :: whole[i] == first && whole[j] == second
  }

  /** Some rows of a list, in its order. */
  ghost predicate InOrderOf(part: seq<Operation>, whole: seq<Operation>) {
    && (forall i | 0 <= i < |part| :: part[i] in whole)
    && forall i, j | 0 <= i < j < |part| :: ComesBefore(whole, part[i], part[j])
  }

  /** A value stored under a legacy name or the English one is sent under the English one; its own value wins. */
  predicate SendsUnder(stored: Payload, sent: Payload, legacy: string, english: string) {
    && legacy !in sent
    && (if english in stored then english in sent && sent[english] == stored[english]
        else if legacy in stored then english in sent && sent[english] == stored[legacy]
        else english !in sent)
  }

  const TRANSLATED_KEYS: set<string> := {
    "estado", "status", "nrocapvisto", "episodesWatched", "fechaUltCapVisto", "lastWatchedAt", "dias", "days"}

  /** The stored edit in the names of the wire, and nothing else. */
  ghost predicate IsTranslated(stored: Payload, sent: Payload) {
    && SendsUnder(stored, sent, "estado", "status")
    && SendsUnder(stored, sent, "nrocapvisto", "episodesWatched")
    && SendsUnder(stored, sent, "fechaUltCapVisto", "lastWatchedAt")
    && SendsUnder(stored, sent, "dias", "days")
    && forall key: string | key !in TRANSLATED_KEYS ::
         (key in sent <==> key in stored) && (key in sent ==> sent[key] == stored[key])
  }

  /** One row on the wire: an edit translated, any other operation as it is stored. */
  ghost predicate Carries(sent: SentOperation, row: Row, base: Option<int>) {
    && sent.animeId == row.animeId && sent.operation == row.operation && sent.createdAt == row.createdAt
    && (if row.operation == "update" then IsTranslated(row.payload, sent.payload) else sent.payload == row.payload)
    && sent.base == base && base.Some?
  }

  /** The token a row is sent on: the one stored when the round was prepared or, where there was none, the one fetched. */
  ghost predicate IsBase(animes: Animes, fetched: map<AnimeId, AnimeResult>, animeId: AnimeId, base: int) {
    if animeId in animes && animes[animeId].token.Some? then animes[animeId].token == Some(base)
    else
      animeId in fetched && fetched[animeId].Http? && fetched[animeId].status != 404 && fetched[animeId].ok
      && fetched[animeId].token == Some(base)
  }

  ghost predicate CanBeSent(animes: Animes, fetched: map<AnimeId, AnimeResult>, animeId: AnimeId) {
    exists base: int :: IsBase(animes, fetched, animeId, base)
  }

  /** Exactly one operation for each row sent, in order, each on its own base. */
  ghost predicate RequestCarries(request: Request, sent: seq<Operation>, animes: Animes,
                                 fetched: map<AnimeId, AnimeResult>, bases: Tokens)
  {
    && |request.operations| == |sent|
    && forall i | 0 <= i < |sent| ::
         && sent[i].row.animeId in bases
         && IsBase(animes, fetched, sent[i].row.animeId, bases[sent[i].row.animeId])
         && Carries(request.operations[i], sent[i].row, Some(bases[sent[i].row.animeId]))
  }

  predicate IsField(value: Option<Json>, payload: Payload, field: string) {
    if field in payload then value == Some(payload[field]) else value == None
  }

  predicate BodyCarries(body: RatingBody, row: Row) {
    && body.animeId == row.animeId && IsField(body.nota, row.payload, "grade")
    && IsField(body.ratedAt, row.payload, "ratedAt") && IsField(body.seasonId, row.payload, "seasonId")
  }

  // ----- Where a row ends -----

  predicate Names(entry: AppliedOperation, row: Row) { entry.animeId == row.animeId && entry.operation == row.operation }

  predicate ShowsField(change: WireChange, field: string, value: Json) {
    || field in change.changedFields
    || (change.snapshot.Some? && field in change.snapshot.value && change.snapshot.value[field] == value && !value.Compound?)
  }

  /** The first entry that names the row says it was applied; with none, a pulled change shows all it sent. */
  ghost predicate IsEvidenced(row: Row, payload: Payload, response: Response) {
    if exists i | 0 <= i < |response.applied| :: Names(response.applied[i], row)
    then
      exists i | 0 <= i < |response.applied| ::
        && Names(response.applied[i], row) && response.applied[i].applied
        && forall j | 0 <= j < i :: !Names(response.applied[j], row)
    else
      payload != map[] && exists i | 0 <= i < |response.changes| ::
        && response.changes[i].recordId == row.animeId && response.changes[i].changeType != Delete
        && forall field | field in payload :: ShowsField(response.changes[i], field, payload[field])
  }

  predicate RejectsRow(entry: AppliedOperation, row: Row) {
    !entry.applied && entry.animeId + ":" + entry.operation == row.animeId + ":" + row.operation
  }

  /** The last rejecting entry under the row's key is the one at `i`. */
  ghost predicate IsRejectedBy(row: Row, applied: seq<AppliedOperation>, i: nat) {
    i < |applied| && RejectsRow(applied[i], row) && forall j | i < j < |applied| :: !RejectsRow(applied[j], row)
  }

  ghost predicate IsNotRejected(row: Row, applied: seq<AppliedOperation>) {
    forall i | 0 <= i < |applied| :: !RejectsRow(applied[i], row)
  }

  /**
   * Where a rejection takes a row: an unsupported operation is given up; a conflict on a new token goes back with a
   * fresh count; one on the token it was sent on counts, and the third is the last; anything else goes back as it was.
   */
  predicate EndsAsRejected(row: Row, after: Row, entry: AppliedOperation, base: int) {
    if entry.reason == Some("unsupported_operation") then after == row.(status := DeadLetter, claim := None)
    else if entry.reason != Some("conflict") || entry.modifiedAt.None? then after == row.(status := Pending, claim := None)
    else if entry.modifiedAt != Some(base) then after == row.(status := Pending, attempts := 0, claim := None)
    else after == row.(status := if row.attempts + 1 < 3 then Pending else Status.ConflictExhausted,
                       attempts := row.attempts + 1, claim := None)
  }

  /** Where an answer takes a row it was sent for: by its evidence first, then by its rejection, and else back. */
  ghost predicate EndsAsAnswered(row: Row, after: Row, payload: Payload, base: int, response: Response) {
    if IsEvidenced(row, payload, response) then after == row.(status := Synced, claim := None)
    else
      && (forall i: nat | IsRejectedBy(row, response.applied, i) :: EndsAsRejected(row, after, response.applied[i], base))
      && (IsNotRejected(row, response.applied) ==> after == row.(status := Pending, claim := None))
  }

  /** Where the status of a posted rating takes it. */
  predicate EndsAsPosted(row: Row, after: Row, status: Option<int>) {
    if status == Some(204) then after == row.(status := Synced, claim := None)
    else if status.Some? && 400 <= status.value < 500 then
      after == row.(status := DeadLetter, claim := None, reason := Some(
        if status.value == 401 then "auth_repair" else if status.value == 404 then "not_found"
        else if status.value == 409 then "conflict" else "rejected"))
    else after == row.(status := Pending, claim := None)
  }

  // ----- What becomes of the other rows -----

  /** Both payloads name one season by one scalar, or neither names any. */
  predicate SameSeason(a: Payload, b: Payload) {
    && ("seasonId" in a <==> "seasonId" in b)
    && ("seasonId" in a && "seasonId" in b ==> a["seasonId"] == b["seasonId"] && !a["seasonId"].Compound?)
  }

  /** The confirmation of `done` carries its key past the given-up row `id`. */
  predicate IsPassed(t: Table, id: nat, done: nat)
    requires id in t && done in t
  {
    && t[id].animeId == t[done].animeId && id < done
    && if t[done].operation == "season_rating"
       then t[id].operation == "season_rating" && t[id].status == DeadLetter
            && SameSeason(t[id].payload, t[done].payload)
       else t[id].operation == "update" && (t[id].status == DeadLetter || t[id].status == Status.ConflictExhausted)
  }

  /** The row is the first queued one of its anime, and nobody's. */
  ghost predicate IsNextOf(t: Table, after: Table, id: nat)
    requires id in t
  {
    && t[id].status == Pending && t[id].claim.None?
    && forall other | other in after && other != id && after[other].animeId == t[id].animeId
                      && (after[other].status == Pending || after[other].status == Processing) ::
         t[id].createdAt < after[other].createdAt || (t[id].createdAt == after[other].createdAt && id < other)
  }

  ghost predicate SharesAnime(t: Table, id: nat, done: set<nat>)
    requires id in t
  {
    exists other | other in done :: other in t && t[other].animeId == t[id].animeId
  }

  /** An unanswered row is deleted exactly when a confirmed one passes it, claimed exactly when the chain takes it on. */
  ghost predicate OthersFollow(t: Table, after: Table, claim: Claim, now: int, answered: set<nat>, done: set<nat>)
    requires done <= t.Keys
  {
    && after.Keys <= t.Keys
    && forall id | id in t && id !in answered ::
         && (id in after <==> !exists other | other in done :: IsPassed(t, id, other))
         && (id in after ==>
               after[id] == if now < claim.claimedAt + 20_000 && SharesAnime(t, id, done) && IsNextOf(t, after, id)
                            then t[id].(status := Processing, claim := Some(claim)) else t[id])
  }

  /** The rows newly under the claim, as stored, in queue order. */
  ghost predicate HandsOn(t: Table, after: Table, claim: Claim, successors: seq<Operation>) {
    && (forall id | Held(after, id, claim) && !Held(t, id, claim) ::
          exists i | 0 <= i < |successors| :: successors[i].id == id)
    && (forall i | 0 <= i < |successors| ::
          && Held(after, successors[i].id, claim) && !Held(t, successors[i].id, claim)
          && successors[i].row == after[successors[i].id])
    && forall i, j | 0 <= i < j < |successors| ::
         successors[i].row.createdAt < successors[j].row.createdAt
         || (successors[i].row.createdAt == successors[j].row.createdAt && successors[i].id < successors[j].id)
  }

  // ----- What an answer writes -----

  /** The rows a claim still holds of those sent end as answered, and say what was sent. */
  ghost predicate RowsFollow(t: Table, after: Table, claim: Claim, message: Message)
    requires message.Exchange? && message.answer.Accepted? && |message.request.operations| == |message.sent|
    requires forall i | 0 <= i < |message.sent| :: message.sent[i].row.animeId in message.bases
  {
    forall i | 0 <= i < |message.sent| && Held(t, message.sent[i].id, claim) ::
      && t[message.sent[i].id] == message.sent[i].row && message.sent[i].id in after
      && EndsAsAnswered(message.sent[i].row, after[message.sent[i].id], message.request.operations[i].payload,
                        message.bases[message.sent[i].row.animeId], message.answer.response)
  }

  /** The rows held and evidenced. */
  ghost function DoneBy(t: Table, claim: Claim, sent: seq<Operation>, request: Request, response: Response): set<nat>
    requires |request.operations| == |sent|
  {
    set i | 0 <= i < |sent| && Held(t, sent[i].id, claim)
            && IsEvidenced(sent[i].row, request.operations[i].payload, response) :: sent[i].id
  }

  predicate Rebases(entry: AppliedOperation) { entry.reason == Some("conflict") && entry.modifiedAt.Some? }

  predicate CarriesToken(entry: AppliedOperation, animeId: AnimeId) {
    entry.animeId == animeId && entry.applied && entry.modifiedAt.Some?
  }

  ghost predicate IsConfirmedToken(applied: seq<AppliedOperation>, animeId: AnimeId, i: nat) {
    i < |applied| && CarriesToken(applied[i], animeId) && forall j | i < j < |applied| :: !CarriesToken(applied[j], animeId)
  }

  /** The token an answer leaves an anime of a row still held: a conflict's, the last applied one, or the one it had. */
  ghost predicate TokenFollows(before: Option<int>, after: Option<int>, row: Row, payload: Payload, response: Response) {
    var rejected := !IsEvidenced(row, payload, response);
    && (forall i: nat | rejected && IsRejectedBy(row, response.applied, i) && Rebases(response.applied[i]) ::
          after == response.applied[i].modifiedAt)
    && ((forall i: nat | rejected && IsRejectedBy(row, response.applied, i) :: !Rebases(response.applied[i])) ==>
          && (forall i: nat | IsConfirmedToken(response.applied, row.animeId, i) :: after == response.applied[i].modifiedAt)
          && ((forall i | 0 <= i < |response.applied| :: !CarriesToken(response.applied[i], row.animeId)) ==> after == before))
  }

  /** After the merge an answer writes tokens only, of the animes of rows still held. */
  ghost predicate TokensFollow(t: Table, merged: Animes, after: Animes, claim: Claim, sent: seq<Operation>,
                               request: Request, response: Response)
    requires |request.operations| == |sent|
  {
    && after.Keys == merged.Keys
    && (forall id | id in merged :: after[id] == merged[id].(token := after[id].token))
    && (forall i | 0 <= i < |sent| && Held(t, sent[i].id, claim) && sent[i].row.animeId in merged ::
          TokenFollows(merged[sent[i].row.animeId].token, after[sent[i].row.animeId].token, sent[i].row,
                       request.operations[i].payload, response))
    && forall id | id in merged && !exists i | 0 <= i < |sent| :: sent[i].row.animeId == id && Held(t, sent[i].id, claim) ::
         after[id] == merged[id]
  }

  /** The pulled changes as the merge boundary reads them. */
  ghost predicate ReadsAs(wire: seq<WireChange>, changes: seq<RemoteChange>) {
    && |changes| == |wire|
    && forall i | 0 <= i < |wire| ::
         changes[i] == RemoteChange(wire[i].recordId, wire[i].changeType, wire[i].knownFields, wire[i].anime, wire[i].timestamp)
  }

  /** The pulled changes go through one merge pass, and the tokens are written over what it leaves. */
  ghost predicate ChangesFollow(before: Db, after: Db, claim: Claim, sent: seq<Operation>, request: Request, response: Response)
    requires |request.operations| == |sent|
  {
    exists changes, merged ::
      && ReadsAs(response.changes, changes)
      && (merged, after.staged) == Pass(before.animes, before.staged, changes, Unacked(before.log))
      && (AllCoherent(before.staged) && AllCoherent(changes) ==>
            UnsentEditsAreSafe(before.log, before.animes, merged, before.staged + changes, after.staged))
      && TokensFollow(before.log, merged, after.animes, claim, sent, request, response)
  }

  /** The cursor moves, forward only, for the pairing the round was sent under. */
  predicate CursorFollows(before: Option<Pairing>, after: Option<Pairing>, pairingId: nat, sent: int, answered: Option<int>) {
    if before.Some? && before.value.id == pairingId && answered.Some? && answered.value > sent
    then after == Some(Pairing(pairingId, if before.value.cursor < answered.value then answered.value else before.value.cursor))
    else after == before
  }

  ghost predicate IsApplied(message: Message, claim: Claim, pairingId: nat)
    requires message.Exchange? && message.answer.Accepted? && |message.request.operations| == |message.sent|
    requires forall i | 0 <= i < |message.sent| :: message.sent[i].row.animeId in message.bases
  {
    var before, after, response := message.answered.db, message.closed.db, message.answer.response;
    var done := DoneBy(before.log, claim, message.sent, message.request, response);
    && message.closed.at == message.answered.at + 1 && after.nextId == before.nextId
    && RowsFollow(before.log, after.log, claim, message)
    && OthersFollow(before.log, after.log, claim, after.now, HeldIds(before.log, IdsOf(message.sent), claim), done)
    && ChangesFollow(before, after, claim, message.sent, message.request, response)
    && CursorFollows(before.pairing, after.pairing, pairingId, message.request.lastChangelogId, response.lastChangelogId)
  }

  /** A release: the rows of `ids` still held take the status, nothing else of theirs moves, and no other row does. */
  ghost predicate IsReleased(before: Db, after: Db, ids: set<nat>, claim: Claim, status: Status) {
    && after == before.(log := after.log, now := after.now) && after.log.Keys == before.log.Keys
    && forall id | id in before.log ::
         after.log[id] == if id in ids && Held(before.log, id, claim)
                          then before.log[id].(status := status, claim := None) else before.log[id]
  }

  /** A 4xx but 401: the bridge rejects what a message says. */
  predicate IsRejected(answer: ReconcileResult) { answer.Refused? && 400 <= answer.status < 500 && answer.status != 401 }

  /** What is done about one message, whatever it came to. */
  ghost predicate IsConcluded(message: Message, claim: Claim, pairingId: nat) {
    var before, after := message.answered.db, message.closed.db;
    match message
    case Exchange(_, read, fetched, bases, sent, request, answer, _, _) =>
      && RequestCarries(request, sent, read.db.animes, fetched, bases)
      && (if answer.Accepted? then IsApplied(message, claim, pairingId)
          else if IsRejected(answer) && |sent| > 1 then message.closed == message.answered
          else IsReleased(before, after, IdsOf(sent), claim, if IsRejected(answer) then DeadLetter else Pending))
    case Post(_, rating, body, status, _, _) =>
      && BodyCarries(body, rating.row)
      && (if !Held(before.log, rating.id, claim) then after == before
          else
            && after == before.(log := after.log, now := after.now)
            && rating.id in after.log && before.log[rating.id] == rating.row
            && EndsAsPosted(rating.row, after.log[rating.id], status)
            && OthersFollow(before.log, after.log, claim, after.now, {rating.id},
                            if status == Some(204) then {rating.id} else {}))
    case Release(_, ids, _, _) => IsReleased(before, after, ids, claim, Pending)
  }

  /** The one thing done under the claim before an answer comes: the fetched outcomes are written. */
  ghost predicate WritesFetched(step: Step, claim: Claim, fetched: map<AnimeId, AnimeResult>) {
    && step.FetchMissing? && step.claim == claim && step.outcomes.Keys == fetched.Keys
    && forall animeId | animeId in fetched :: MeansFor(fetched[animeId], step.outcomes[animeId])
  }

  /** What the answer about one anime means for its key. */
  predicate MeansFor(result: AnimeResult, outcome: TokenOutcome) {
    if result.Http? && result.status == 404 then outcome == Unresolved("bridge_404")
    else if result.Http? && result.ok && result.token.None? then outcome == Unresolved("token_missing")
    else if result.Http? && result.ok then outcome == Token(result.token.value)
    else outcome == Unreachable
  }

  /** A message is part of the run: its moments are, and between them this runtime did nothing else. */
  ghost predicate IsPartOf(message: Message, claim: Claim, origin: Db, history: seq<Timed>) {
    && Was(origin, history, message.answered) && Was(origin, history, message.closed)
    && message.answered.at <= message.closed.at <= message.answered.at + 1
    && match message
       case Exchange(began, read, fetched, _, _, _, _, answered, _) =>
         && Was(origin, history, read) && OnlyOthers(history, began, read.at) && read.at <= answered.at
         && forall k | read.at <= k < answered.at ::
              Foreign(history[k].step) || WritesFetched(history[k].step, claim, fetched)
       case Post(began, _, _, _, answered, _) => OnlyOthers(history, began, answered.at)
       case Release(began, _, answered, _) => OnlyOthers(history, began, answered.at)
  }

  /** The requests among the messages, in order. */
  ghost function RequestsOf(messages: seq<Message>): seq<Request> {
    if messages == [] then []
    else
      var last := messages[|messages| - 1];
      RequestsOf(messages[..|messages| - 1]) + if last.Exchange? then [last.request] else []
  }

  /** The ratings posted, in order. */
  ghost function PostedIn(messages: seq<Message>): seq<Operation> {
    if messages == [] then []
    else
      var last := messages[|messages| - 1];
      PostedIn(messages[..|messages| - 1]) + if last.Post? then [last.rating] else []
  }

  /** How many rows a message sent to an end of their own: those of an accepted request, one rejected alone, one rating. */
  ghost function SentBy(message: Message): nat {
    if message.Post? then 1
    else if message.Exchange? && message.answer.Accepted? then |message.sent|
    else if message.Exchange? && IsRejected(message.answer) && |message.sent| <= 1 then 1
    else 0
  }

  /** How many of them are not done with: no evidence, rejected alone, or a rating to be posted again. */
  ghost function LeftBy(message: Message): nat {
    if message.Post? then
      if message.status == Some(204) || (message.status.Some? && 400 <= message.status.value < 500) then 0 else 1
    else if message.Exchange? && message.answer.Accepted? then
      |set i | 0 <= i < |message.sent| && i < |message.request.operations|
               && !IsEvidenced(message.sent[i].row, message.request.operations[i].payload, message.answer.response)|
    else if message.Exchange? && IsRejected(message.answer) && |message.sent| <= 1 then 1
    else 0
  }

  ghost function SentIn(messages: seq<Message>): nat {
    if messages == [] then 0 else SentIn(messages[..|messages| - 1]) + SentBy(messages[|messages| - 1])
  }

  ghost function LeftIn(messages: seq<Message>): nat {
    if messages == [] then 0 else LeftIn(messages[..|messages| - 1]) + LeftBy(messages[|messages| - 1])
  }

  ghost predicate Counted(messages: seq<Message>, sent: nat, left: nat) { SentIn(messages) == sent && LeftIn(messages) == left }

  predicate IsAccepted(message: Message) { message.Exchange? && message.answer.Accepted? }

  predicate GetsThrough(message: Message) {
    match message
    case Exchange(_, _, _, _, _, _, answer, _, _) => answer.Accepted? || IsRejected(answer)
    case Post(_, _, _, _, _, _) => true
    case Release(_, _, _, _) => false
  }

  /** Every request was answered or, at worst, rejected for what it says, and nothing was released unanswered. */
  ghost predicate AllGetThrough(messages: seq<Message>) { forall i | 0 <= i < |messages| :: GetsThrough(messages[i]) }

  ghost predicate Succeeds(messages: seq<Message>) {
    AllGetThrough(messages) && exists i | 0 <= i < |messages| :: IsAccepted(messages[i])
  }

  /** From one moment to another, this runtime did what the messages say and nothing else. */
  ghost predicate Tells(messages: seq<Message>, claim: Claim, pairingId: nat, origin: Db, history: seq<Timed>, from: nat, to: nat) {
    if messages == [] then OnlyOthers(history, from, to)
    else
      var last := messages[|messages| - 1];
      && Tells(messages[..|messages| - 1], claim, pairingId, origin, history, from, last.began)
      && IsPartOf(last, claim, origin, history) && IsConcluded(last, claim, pairingId)
      && OnlyOthers(history, last.closed.at, to)
  }
}
