/** The messages of a cycle, round by round: what a round, a loop over single messages and a whole cycle come to. */
module CycleTranscript {
  import opened Basics
  import opened OutboxTable
  import opened Protocol
  import opened OutboxSafety
  import opened ReconcileAnswer
  import opened CycleRelations
  import opened StoreFacts
  import opened Transcript
  import opened TranscriptFacts

  const RECONCILE_UNAUTHORIZED_STATUS := 401

  datatype Failure = NotPaired | HttpFailure(status: int) | OtherFailure

  datatype Outcome<T> = Ok(value: T) | Err(failure: Failure)

  /** A 4xx but 401: the bridge rejected the content of a message. */
  predicate IsMessageRejection(failure: Failure) {
    failure.HttpFailure? && 400 <= failure.status < 500 && failure.status != RECONCILE_UNAUTHORIZED_STATUS
  }

  datatype RoundContext = RoundContext(pairingId: nat, lastChangelogId: int, claim: Claim)

  datatype RoundOutcome = RoundOutcome(
    sentCount: nat,
    confirmedCount: nat,
    unconfirmedCount: nat,
    nextLastChangelogId: int,
    successors: seq<Operation>)

  /** The failure an answer that is none comes to. */
  function FailureOf(answer: ReconcileResult): (failure: Failure)
    ensures IsMessageRejection(failure) <==> IsRejected(answer)
  {
    if answer.Refused? then HttpFailure(answer.status) else OtherFailure
  }

  /** From one moment to another nothing was done under the claim but writing what was fetched. */
  ghost predicate OnlyFetches(history: seq<Timed>, from: nat, to: nat, claim: Claim, fetched: map<AnimeId, AnimeResult>) {
    && from <= to <= |history|
    && forall k | from <= k < to :: Foreign(history[k].step) || WritesFetched(history[k].step, claim, fetched)
  }

  lemma NothingFetched(history: seq<Timed>, claim: Claim, fetched: map<AnimeId, AnimeResult>)
    ensures OnlyFetches(history, |history|, |history|, claim, fetched)
  {
  }

  lemma FetchIsTold(asked: seq<Timed>, history: seq<Timed>, from: nat, at: int, claim: Claim, ids: set<nat>,
                    outcomes: map<AnimeId, TokenOutcome>, fetched: map<AnimeId, AnimeResult>)
    requires OnlyOthers(asked, from, |asked|) && history == asked + [Timed(at, FetchMissing(claim, ids, outcomes))]
    requires fetched.Keys == outcomes.Keys && forall animeId | animeId in fetched :: MeansFor(fetched[animeId], outcomes[animeId])
    ensures OnlyFetches(history, from, |history|, claim, fetched)
  {
    hide MeansFor;
  }

  lemma OthersStay(history: seq<Timed>, longer: seq<Timed>, from: nat, to: nat)
    requires history <= longer && OnlyOthers(history, from, to)
    ensures OnlyOthers(longer, from, to)
  {
  }

  ghost predicate FailsWith(messages: seq<Message>, failure: Failure) {
    exists i | 0 <= i < |messages| ::
      messages[i].Exchange? && !messages[i].answer.Accepted? && failure == FailureOf(messages[i].answer)
  }

  /** A round is one request: on its cursor, some of the rows claimed in their order, and every one still held. */
  ghost predicate SendsRound(message: Message, context: RoundContext, claimed: seq<Operation>) {
    && message.Exchange? && message.request.lastChangelogId == context.lastChangelogId
    && InOrderOf(message.sent, claimed)
    && forall operation | operation in claimed && Held(message.answered.db.log, operation.id, context.claim) ::
         operation in message.sent
  }

  /** With nobody else acting, every row of the round that can be sent on a base is. */
  ghost predicate SendsAllItCan(message: Message, start: Db, claim: Claim, claimed: seq<Operation>)
    requires message.Exchange?
  {
    && message.read.db == start
    && forall operation | operation in claimed && Held(start.log, operation.id, claim)
                          && CanBeSent(start.animes, message.fetched, operation.row.animeId) :: operation in message.sent
  }

  /** The message once its own transaction, if any, is made. */
  ghost function Closed(asked: Message, answered: Moment, closed: Moment): (message: Message)
    requires asked.Exchange?
    ensures message.Exchange? && message.answered == answered && message.closed == closed
    ensures message.began == asked.began && message.sent == asked.sent && message.answer == asked.answer
    ensures message.request == asked.request && message.bases == asked.bases
  {
    Exchange(asked.began, asked.read, asked.fetched, asked.bases, asked.sent, asked.request, asked.answer, answered, closed)
  }

  lemma ClosedTheSame(asked: Message, answered: Moment, closed: Moment, context: RoundContext, claimed: seq<Operation>,
                      start: Db, origin: Db, prepared: seq<Timed>, heard: seq<Timed>)
    requires SendsRound(asked, context, claimed) && IsHeard(asked, context, origin, prepared, heard)
    requires answered == asked.answered || Handed(asked.answered.db.log, answered.db.log, context.claim, {}, {})
    ensures var message := Closed(asked, answered, closed);
      && SendsRound(message, context, claimed) && IsHeard(message, context, origin, prepared, heard)
      && (SendsAllItCan(asked, start, context.claim, claimed) ==> SendsAllItCan(message, start, context.claim, claimed))
  {
    hide InOrderOf, CanBeSent, Was, OnlyOthers, OnlyFetches, RequestCarries, BuildReconcileRequestBody;
  }

  /** What a round reports of an answer: how much it sent, what it found no evidence for, where it got, what comes next. */
  ghost predicate Reports(round: RoundOutcome, message: Message, claim: Claim)
    requires message.Exchange? && message.answer.Accepted? && |message.request.operations| == |message.sent|
  {
    var response := message.answer.response;
    && round.sentCount == |message.sent|
    && round.unconfirmedCount == |set i | 0 <= i < |message.sent|
                                          && !IsEvidenced(message.sent[i].row, message.request.operations[i].payload, response)|
    && round.nextLastChangelogId
       == (if response.lastChangelogId.Some? then response.lastChangelogId.value else message.request.lastChangelogId)
    && HandsOn(message.answered.db.log, message.closed.db.log, claim, round.successors)
  }

  /**
   * What becomes of one round, by the answer to its request: one that is accepted is the whole of it, and a success that
   * reports it; a rejection of several rows is followed by one request for each still held; any other is its failure.
   */
  ghost predicate RoundEnds(messages: seq<Message>, outcome: Outcome<RoundOutcome>, context: RoundContext, end: Moment) {
    && messages != [] && messages[0].Exchange? && |messages[0].request.operations| == |messages[0].sent|
    && (messages[0].answer.Accepted? ==>
          |messages| == 1 && messages[0].closed == end && outcome.Ok? && Reports(outcome.value, messages[0], context.claim))
    && (!messages[0].answer.Accepted? && !(IsRejected(messages[0].answer) && |messages[0].sent| > 1) ==>
          |messages| == 1 && messages[0].closed == end)
    && (forall i | 1 <= i < |messages| && messages[i].Exchange? :: IsSingle(messages[i], messages[0].sent))
    && (outcome.Ok? <==> Succeeds(messages))
    && (outcome.Err? ==> FailsWith(messages, outcome.failure))
  }

  ghost predicate IsSingle(message: Message, operations: seq<Operation>)
    requires message.Exchange?
  {
    |message.sent| <= 1 && forall operation | operation in message.sent :: operation in operations
  }

  lemma RoundComesTo(messages: seq<Message>, outcome: Outcome<RoundOutcome>, context: RoundContext, end: Moment)
    requires RoundEnds(messages, outcome, context, end)
    ensures if outcome.Ok? then Succeeds(messages) && AllGetThrough(messages) else FailsWith(messages, outcome.failure)
  {
    hide Reports, IsSingle, FailsWith, AllGetThrough;
  }

  lemma AcceptedCounts(message: Message, round: RoundOutcome, claim: Claim)
    requires message.Exchange? && message.answer.Accepted? && |message.request.operations| == |message.sent|
    requires Reports(round, message, claim)
    ensures Counted([message], round.sentCount, round.unconfirmedCount)
  {
    CountedOne(message);
    hide IsEvidenced, HandsOn;
    assert (set i | 0 <= i < |message.sent| && i < |message.request.operations|
                    && !IsEvidenced(message.sent[i].row, message.request.operations[i].payload, message.answer.response))
      == set i | 0 <= i < |message.sent|
                 && !IsEvidenced(message.sent[i].row, message.request.operations[i].payload, message.answer.response);
  }

  lemma RejectedCounts(first: Message, rest: seq<Message>, sent: nat, left: nat)
    requires first.Exchange? && IsRejected(first.answer) && |first.sent| > 1 && Counted(rest, sent, left)
    ensures Counted([first] + rest, sent, left)
  {
    CountedOne(first);
    CountsJoin([first], rest, 0, 0, sent, left);
  }

  /** What one request's message says of the run up to its answer. */
  ghost predicate IsHeard(message: Message, context: RoundContext, origin: Db, prepared: seq<Timed>, heard: seq<Timed>) {
    && message.Exchange? && prepared <= heard
    && Was(origin, prepared, message.read) && OnlyOthers(prepared, message.began, message.read.at)
    && OnlyFetches(prepared, message.read.at, |prepared|, context.claim, message.fetched)
    && OnlyOthers(heard, |prepared|, |heard|)
    && message.request == BuildReconcileRequestBody(context.lastChangelogId, message.sent, message.bases)
    && message.request.lastChangelogId == context.lastChangelogId
    && RequestCarries(message.request, message.sent, message.read.db.animes, message.fetched, message.bases)
  }

  lemma AnswerTold(message: Message, context: RoundContext, origin: Db, prepared: seq<Timed>, heard: seq<Timed>,
                   history: seq<Timed>, round: RoundOutcome)
    requires IsHeard(message, context, origin, prepared, heard) && message.answer.Accepted?
    requires Carried(message.sent, message.answered.db, context.claim) && OnePerAnime(message.sent)
    requires heard <= history && |history| == |heard| + 1
    requires message.answered.at == |heard| && message.closed.at == |history|
    requires IsAnswerOf(message.answered.db, message.closed.db, message.sent, message.answer.response, message.bases,
                        context.lastChangelogId, context.pairingId, context.claim)
    requires Was(origin, heard, message.answered) && Was(origin, history, message.closed)
    requires Exclusive(message.answered.db.log, message.answered.db.now) && message.answered.db.now <= message.closed.db.now
    requires IsOutcomeOf(round, message.answered.db, message.closed.db.now, message.sent, message.answer.response, message.bases,
                         context)
    ensures Tells([message], context.claim, context.pairingId, origin, history, message.began, |history|)
    ensures RequestsOf([message]) == [message.request]
    ensures RoundEnds([message], Ok(round), context, message.closed)
  {
    hide Run, Next, Carried, Was, RequestCarries, IsAnswerOf, Exclusive, IsOutcomeOf, IsApplied;
    var response := message.answer.response;
    RequestHasBases(message);
    assert IsExchange(message, message.sent, response, message.bases);
    hide BuildReconcileRequestBody;
    AnswerMeans(message.answered.db, message.sent, response, message.bases, context.pairingId, context.claim, message);
    AnswerReports(message, context, round);
    WasLonger(origin, heard, history, message.answered);
    OthersStay(heard, history, |prepared|, |heard|);
    ExchangeIsPart(message, context.claim, origin, prepared, history);
    hide IsPartOf, OnlyOthers, OnlyFetches, Reports, OnePerAnime;
    TellsOne(message, context.claim, context.pairingId, origin, history, |history|);
    RequestsOfOne(message);
    hide Tells, RequestsOf;
    assert [message][0] == message && IsAccepted([message][0]);
    hide IsConcluded;
  }

  /** The outcome of a round in the terms its transaction computes it in. */
  ghost predicate IsOutcomeOf(round: RoundOutcome, before: Db, at: int, operations: seq<Operation>, response: Response,
                              tokens: Tokens, context: RoundContext)
  {
    round == RoundOutcome(|operations|, round.confirmedCount, |Unconfirmed(operations, response)|,
      AnsweredCursor(response, context.lastChangelogId),
      ChainRows(before.log, FatesOf(operations, response, tokens), context.claim, at))
  }

  lemma AnswerReports(message: Message, context: RoundContext, round: RoundOutcome)
    requires message.Exchange? && message.answer.Accepted?
    requires |message.request.operations| == |message.sent|
    requires message.request == BuildReconcileRequestBody(context.lastChangelogId, message.sent, message.bases)
    requires IsAnswerOf(message.answered.db, message.closed.db, message.sent, message.answer.response, message.bases,
                        context.lastChangelogId, context.pairingId, context.claim)
    requires Exclusive(message.answered.db.log, message.answered.db.now) && message.answered.db.now <= message.closed.db.now
    requires IsOutcomeOf(round, message.answered.db, message.closed.db.now, message.sent, message.answer.response, message.bases,
                         context)
    ensures Reports(round, message, context.claim)
  {
    var response, at := message.answer.response, message.closed.db.now;
    hide IsAnswerOf, Exclusive, Unconfirmed, FatesOf, ChainRows, SettleRound, HandsOn;
    AnswerLog(message.answered.db, message.closed.db, message.sent, response, message.bases, context.lastChangelogId,
      context.pairingId, context.claim);
    ExclusiveLater(message.answered.db.log, message.answered.db.now, at);
    SuccessorsMean(message.answered.db.log, FatesOf(message.sent, response, message.bases), context.claim, at);
    SentCount(context.lastChangelogId, message.sent, message.bases, response);
    hide BuildReconcileRequestBody, IsEvidenced;
  }

  lemma ExclusiveLater(t: Table, now: int, at: int)
    requires Exclusive(t, now) && now <= at
    ensures Exclusive(t, at)
  {
  }

  lemma SentCount(lastChangelogId: int, operations: seq<Operation>, bases: Tokens, response: Response)
    ensures var request := BuildReconcileRequestBody(lastChangelogId, operations, bases);
      request.lastChangelogId == lastChangelogId && |request.operations| == |operations|
      && |Unconfirmed(operations, response)|
         == |set i | 0 <= i < |operations| && !IsEvidenced(operations[i].row, request.operations[i].payload, response)|
  {
    UnconfirmedCount(operations, response);
    hide IsEvidenced, NormalizedPayload, Unconfirmed;
    var request := BuildReconcileRequestBody(lastChangelogId, operations, bases);
    assert (set i | 0 <= i < |operations| && !IsEvidenced(operations[i].row, request.operations[i].payload, response))
      == set i | 0 <= i < |operations| && !IsEvidenced(operations[i].row,
        NormalizedPayload(operations[i].row.operation, operations[i].row.payload), response);
  }

  lemma AnswerCounts(message: Message, context: RoundContext, end: Moment, round: RoundOutcome)
    requires message.Exchange? && message.answer.Accepted? && RoundEnds([message], Ok(round), context, end)
    ensures Counted([message], round.sentCount, round.unconfirmedCount)
  {
    assert [message][0] == message;
    hide Counted, Reports;
    AcceptedCounts(message, round, context.claim);
  }

  lemma RequestHasBases(message: Message)
    requires message.Exchange?
    requires RequestCarries(message.request, message.sent, message.read.db.animes, message.fetched, message.bases)
    ensures |message.request.operations| == |message.sent|
    ensures forall i | 0 <= i < |message.sent| :: message.sent[i].row.animeId in message.bases
  {
  }

  /** A request that came to nothing, or was rejected alone: its rows are released. */
  lemma FailureTold(message: Message, context: RoundContext, origin: Db, prepared: seq<Timed>, heard: seq<Timed>,
                    history: seq<Timed>)
    requires IsHeard(message, context, origin, prepared, heard) && !message.answer.Accepted?
    requires heard <= history && OnlyOthers(history, |heard|, message.answered.at)
    requires Was(origin, history, message.answered) && Was(origin, history, message.closed)
    requires message.answered.at <= |history| <= message.answered.at + 1 && message.closed.at == |history|
    requires IsRejected(message.answer) ==> |message.sent| <= 1
    requires IsReleased(message.answered.db, message.closed.db, IdsOf(message.sent), context.claim,
                        if IsRejected(message.answer) then DeadLetter else Pending)
    ensures Tells([message], context.claim, context.pairingId, origin, history, message.began, |history|)
    ensures RequestsOf([message]) == [message.request]
    ensures RoundEnds([message], Err(FailureOf(message.answer)), context, message.closed)
  {
    hide Run, Was, RequestCarries, IsReleased, IdsOf;
    RequestHasBases(message);
    OthersStay(heard, history, |prepared|, |heard|);
    OthersLonger(history, history, |prepared|, |heard|, message.answered.at);
    ExchangeIsPart(message, context.claim, origin, prepared, history);
    hide IsPartOf;
    TellsOne(message, context.claim, context.pairingId, origin, history, |history|);
    RequestsOfOne(message);
    assert FailsWith([message], FailureOf(message.answer)) by { assert [message][0] == message; }
    assert !Succeeds([message]) by { assert [message][0] == message; }
  }

  /** A rejected request of several rows, and what each of them came to alone. */
  lemma RejectionTold(first: Message, rest: seq<Message>, context: RoundContext, origin: Db, prepared: seq<Timed>,
                      heard: seq<Timed>, history: seq<Timed>, wired: seq<Request>, wire: seq<Request>,
                      outcome: Outcome<RoundOutcome>, end: Moment)
    requires first.Exchange? && IsHeard(first, context, origin, prepared, heard) && IsRejected(first.answer) && |first.sent| > 1
    requires first.answered == first.closed && first.answered.at == |heard| && Was(origin, heard, first.answered)
    requires heard <= history
    requires EndsSingly(rest, first.sent, context, origin, history, |heard|, wired + [first.request], wire,
                        FailureOf(first.answer), outcome)
    ensures Tells([first] + rest, context.claim, context.pairingId, origin, history, first.began, |history|)
    ensures wire == wired + RequestsOf([first] + rest)
    ensures RoundEnds([first] + rest, outcome, context, end)
  {
    hide IsHeard, EndsSingly, RoundEnds, Tells, RequestsOf, Was;
    FirstIsTold(first, context, origin, prepared, heard);
    RestIsTold(first, rest, context, origin, heard, history, wired, wire, outcome);
    RejectionEnds(first, rest, context, origin, heard, history, wired, wire, outcome, end);
  }

  /** A rejected request of several rows writes nothing of its own. */
  lemma FirstIsTold(first: Message, context: RoundContext, origin: Db, prepared: seq<Timed>, heard: seq<Timed>)
    requires IsHeard(first, context, origin, prepared, heard) && IsRejected(first.answer) && |first.sent| > 1
    requires first.answered == first.closed && first.answered.at == |heard| && Was(origin, heard, first.answered)
    ensures Tells([first], context.claim, context.pairingId, origin, heard, first.began, |heard|)
    ensures |first.request.operations| == |first.sent|
  {
    hide Run, Was, RequestCarries;
    RequestHasBases(first);
    ExchangeIsPart(first, context.claim, origin, prepared, heard);
    hide IsPartOf;
    TellsOne(first, context.claim, context.pairingId, origin, heard, |heard|);
    hide Tells;
  }

  lemma RestIsTold(first: Message, rest: seq<Message>, context: RoundContext, origin: Db, heard: seq<Timed>,
                   history: seq<Timed>, wired: seq<Request>, wire: seq<Request>, outcome: Outcome<RoundOutcome>)
    requires first.Exchange? && heard <= history
    requires Tells([first], context.claim, context.pairingId, origin, heard, first.began, |heard|)
    requires EndsSingly(rest, first.sent, context, origin, history, |heard|, wired + [first.request], wire,
                        FailureOf(first.answer), outcome)
    ensures Tells([first] + rest, context.claim, context.pairingId, origin, history, first.began, |history|)
    ensures wire == wired + RequestsOf([first] + rest)
  {
    hide Tells, RequestsOf, Succeeds, FailsWith, IsSingle;
    TellsTwice([first], rest, context.claim, context.pairingId, origin, heard, history, first.began, |heard|, |history|);
    RequestsOfOne(first);
    RequestsTwice([first], rest);
    assert wired + [first.request] + RequestsOf(rest) == wired + ([first.request] + RequestsOf(rest));
  }

  lemma RejectionEnds(first: Message, rest: seq<Message>, context: RoundContext, origin: Db,
                      heard: seq<Timed>, history: seq<Timed>, wired: seq<Request>, wire: seq<Request>,
                      outcome: Outcome<RoundOutcome>, end: Moment)
    requires first.Exchange? && IsRejected(first.answer) && |first.sent| > 1 && |first.request.operations| == |first.sent|
    requires EndsSingly(rest, first.sent, context, origin, history, |heard|, wired + [first.request], wire,
                        FailureOf(first.answer), outcome)
    ensures RoundEnds([first] + rest, outcome, context, end)
  {
    hide Tells, RequestsOf, Succeeds, FailsWith, IsSingle, Reports;
    SucceedsAfterRejection(first, rest);
    assert forall i | 1 <= i < |[first] + rest| :: ([first] + rest)[i] == rest[i - 1];
  }

  lemma SucceedsAfterRejection(first: Message, rest: seq<Message>)
    requires first.Exchange? && IsRejected(first.answer)
    ensures Succeeds([first] + rest) <==> Succeeds(rest)
    ensures FailsWith([first] + rest, FailureOf(first.answer))
    ensures forall failure | FailsWith(rest, failure) :: FailsWith([first] + rest, failure)
  {
    var all := [first] + rest;
    assert all[0] == first;
    forall failure | FailsWith(rest, failure) ensures FailsWith(all, failure) {
      MessagesJoin([first], rest);
    }
    assert forall i | 0 <= i < |rest| :: all[i + 1] == rest[i];
    if Succeeds(rest) {
      var i :| 0 <= i < |rest| && IsAccepted(rest[i]);
      assert IsAccepted(all[i + 1]);
    }
    if Succeeds(all) {
      var i :| 0 <= i < |all| && IsAccepted(all[i]);
      assert i > 0 && rest[i - 1] == all[i];
      assert forall k | 0 <= k < |rest| && rest[k].Exchange? :: all[k + 1].Exchange?;
    }
  }

  /** How many of the rows sent an answer gives no evidence for. */
  lemma {:induction false} UnconfirmedCount(operations: seq<Operation>, response: Response)
    ensures |Unconfirmed(operations, response)|
      == |set i | 0 <= i < |operations| && !IsEvidenced(operations[i].row,
            NormalizedPayload(operations[i].row.operation, operations[i].row.payload), response)|
  {
    hide IsEvidenced, IsOperationConfirmed, NormalizedPayload;
    var all := set i | 0 <= i < |operations| && !IsEvidenced(operations[i].row,
      NormalizedPayload(operations[i].row.operation, operations[i].row.payload), response);
    if operations == [] {
      assert all == {};
    } else {
      var n := |operations| - 1;
      var before := set i | 0 <= i < n && !IsEvidenced(operations[..n][i].row,
        NormalizedPayload(operations[..n][i].row.operation, operations[..n][i].row.payload), response);
      UnconfirmedCount(operations[..n], response);
      EvidenceMeans(operations[n], response);
      assert all == before + if IsOperationConfirmed(operations[n], response.applied, response.changes) then {} else {n};
    }
  }

  lemma SaidNothing(context: RoundContext, origin: Db, history: seq<Timed>)
    ensures Tells([], context.claim, context.pairingId, origin, history, |history|, |history|) && RequestsOf([]) == []
    ensures AllGetThrough([]) && !Succeeds([]) && !Delivers([])
  {
  }

  /** How far a loop over single messages has come, in what it said: every request got through so far. */
  ghost predicate SaidSingly(messages: seq<Message>, operations: seq<Operation>, context: RoundContext, origin: Db,
                             history: seq<Timed>, from: nat, wired: seq<Request>, wire: seq<Request>, rejection: Failure,
                             last: Failure, delivered: bool)
  {
    && Tells(messages, context.claim, context.pairingId, origin, history, from, |history|)
    && wire == wired + RequestsOf(messages)
    && (forall i | 0 <= i < |messages| :: messages[i].Exchange? && IsSingle(messages[i], operations))
    && AllGetThrough(messages) && (delivered <==> Succeeds(messages))
    && IsMessageRejection(last) && (last == rejection || FailsWith(messages, last))
  }

  /**
   * What a loop over single messages said: one request for one row at most each, a success exactly when one was accepted
   * and none failed but by its content; then nothing was released besides.
   */
  ghost predicate EndsSingly(messages: seq<Message>, operations: seq<Operation>, context: RoundContext, origin: Db,
                             history: seq<Timed>, from: nat, wired: seq<Request>, wire: seq<Request>, rejection: Failure,
                             outcome: Outcome<RoundOutcome>)
  {
    && Tells(messages, context.claim, context.pairingId, origin, history, from, |history|)
    && wire == wired + RequestsOf(messages)
    && (forall i | 0 <= i < |messages| && messages[i].Exchange? :: IsSingle(messages[i], operations))
    && (outcome.Ok? <==> Succeeds(messages))
    && (outcome.Ok? ==> forall i | 0 <= i < |messages| :: messages[i].Exchange?)
    && (outcome.Err? ==> outcome.failure == rejection || FailsWith(messages, outcome.failure))
  }

  lemma SinglyStarts(operations: seq<Operation>, context: RoundContext, origin: Db, history: seq<Timed>, wire: seq<Request>,
                     rejection: Failure)
    requires IsMessageRejection(rejection)
    ensures SaidSingly([], operations, context, origin, history, |history|, wire, wire, rejection, rejection, false)
  {
    SaidNothing(context, origin, history);
    assert wire + [] == wire;
    hide Tells, RequestsOf, Succeeds, AllGetThrough;
  }

  lemma SinglyWaits(messages: seq<Message>, operations: seq<Operation>, context: RoundContext, origin: Db,
                    history: seq<Timed>, longer: seq<Timed>, from: nat, wired: seq<Request>, wire: seq<Request>,
                    rejection: Failure, last: Failure, delivered: bool)
    requires SaidSingly(messages, operations, context, origin, history, from, wired, wire, rejection, last, delivered)
    requires history <= longer && OnlyOthers(longer, |history|, |longer|)
    ensures SaidSingly(messages, operations, context, origin, longer, from, wired, wire, rejection, last, delivered)
  {
    hide Tells, RequestsOf, Succeeds, AllGetThrough, OnlyOthers, FailsWith, IsSingle, IsMessageRejection;
    TellsLonger(messages, context.claim, context.pairingId, origin, history, longer, from, |history|, |longer|);
  }

  lemma SinglyEnds(messages: seq<Message>, operations: seq<Operation>, context: RoundContext, origin: Db,
                   history: seq<Timed>, from: nat, wired: seq<Request>, wire: seq<Request>, rejection: Failure,
                   last: Failure, delivered: bool, outcome: Outcome<RoundOutcome>)
    requires SaidSingly(messages, operations, context, origin, history, from, wired, wire, rejection, last, delivered)
    requires delivered <==> outcome.Ok?
    requires outcome.Err? ==> outcome.failure == last
    ensures EndsSingly(messages, operations, context, origin, history, from, wired, wire, rejection, outcome)
  {
    hide Tells, RequestsOf, Succeeds, AllGetThrough, FailsWith, IsSingle, IsMessageRejection;
  }

  /** One more message, whose one row was accepted, rejected or not answered. */
  lemma OneMoreSaid(message: Message, single: Outcome<RoundOutcome>, context: RoundContext, operations: seq<Operation>, i: nat,
                    end: Moment, said: seq<Message>)
    requires said != [] && message == said[0] && i < |operations|
    requires RoundEnds(said, single, context, end) && SendsRound(message, context, [operations[i]])
    ensures said == [message] && message.Exchange? && IsSingle(message, operations)
    ensures single.Ok? <==> message.answer.Accepted?
    ensures single.Err? ==> single.failure == FailureOf(message.answer)
  {
    OneAtMost(message.sent, operations[i], operations);
    assert |said| == 1;
    hide InOrderOf, Reports;
    assert IsAccepted(said[0]) <==> message.answer.Accepted?;
  }

  lemma SingleCounts(messages: seq<Message>, said: seq<Message>, single: Outcome<RoundOutcome>, operations: seq<Operation>,
                     i: nat, context: RoundContext, end: Moment, sent: nat, left: nat)
    requires i < |operations| && said != [] && RoundEnds(said, single, context, end)
    requires SendsRound(said[0], context, [operations[i]]) && Counted(messages, sent, left)
    requires single.Ok? ==> Counted(said, single.value.sentCount, single.value.unconfirmedCount)
    ensures single.Ok? ==> Counted(messages + said, sent + single.value.sentCount, left + single.value.unconfirmedCount)
    ensures single.Err? && IsMessageRejection(single.failure) ==> Counted(messages + said, sent + 1, left + 1)
  {
    OneMoreSaid(said[0], single, context, operations, i, end, said);
    hide RoundEnds, SendsRound, Counted;
    if single.Ok? {
      CountsJoin(messages, said, sent, left, single.value.sentCount, single.value.unconfirmedCount);
    } else if IsMessageRejection(single.failure) {
      CountedOne(said[0]);
      CountsJoin(messages, said, sent, left, 1, 1);
    }
  }

  lemma SinglyGoesOn(messages: seq<Message>, said: seq<Message>, single: Outcome<RoundOutcome>, operations: seq<Operation>,
                     i: nat, context: RoundContext, cursor: int, origin: Db, history: seq<Timed>, longer: seq<Timed>, from: nat,
                     wired: seq<Request>, wire: seq<Request>, more: seq<Request>, rejection: Failure, last: Failure,
                     delivered: bool, end: Moment)
    requires SaidSingly(messages, operations, context, origin, history, from, wired, wire, rejection, last, delivered)
    requires i < |operations| && history <= longer && more == wire + RequestsOf(said)
    requires Tells(said, context.claim, context.pairingId, origin, longer, |history|, |longer|)
    requires said != [] && RoundEnds(said, single, context.(lastChangelogId := cursor), end)
    requires SendsRound(said[0], context.(lastChangelogId := cursor), [operations[i]])
    ensures single.Ok? ==>
      SaidSingly(messages + said, operations, context, origin, longer, from, wired, more, rejection, last, true)
    ensures single.Err? && IsMessageRejection(single.failure) ==>
      SaidSingly(messages + said, operations, context, origin, longer, from, wired, more, rejection, single.failure, delivered)
    ensures single.Err? && !IsMessageRejection(single.failure) ==>
      EndsSingly(messages + said, operations, context, origin, longer, from, wired, more, rejection, single)
  {
    hide RoundEnds, SendsRound, Tells, RequestsOf, Succeeds, AllGetThrough, FailsWith, IsSingle, IsMessageRejection, IsRejected,
      FailureOf;
    OneMoreSaid(said[0], single, context.(lastChangelogId := cursor), operations, i, end, said);
    TellsTwice(messages, said, context.claim, context.pairingId, origin, history, longer, from, |history|, |longer|);
    RequestsTwice(messages, said);
    MessagesGrow(messages, said[0]);
  }

  /** What one more request makes of what got through and of what failed. */
  lemma MessagesGrow(messages: seq<Message>, message: Message)
    requires message.Exchange?
    ensures var all := messages + [message];
      && (AllGetThrough(all) <==> AllGetThrough(messages) && (message.answer.Accepted? || IsRejected(message.answer)))
      && (message.answer.Accepted? ==> (Succeeds(all) <==> AllGetThrough(messages)))
      && (!message.answer.Accepted? ==> (Succeeds(all) <==> Succeeds(messages) && IsRejected(message.answer)))
      && (!message.answer.Accepted? ==> FailsWith(all, FailureOf(message.answer)))
      && forall failure | FailsWith(messages, failure) :: FailsWith(all, failure)
  {
    var all := messages + [message];
    assert all[|messages|] == message && forall i | 0 <= i < |messages| :: all[i] == messages[i];
    forall i | 0 <= i < |messages| ensures IsAccepted(all[i]) <==> IsAccepted(messages[i]) {
    }
    assert IsAccepted(all[|messages|]) <==> message.answer.Accepted?;
    hide IsRejected, FailureOf;
    forall failure | FailsWith(messages, failure) ensures FailsWith(all, failure) {
      FailsLonger(messages, [message], failure);
    }
  }

  lemma OneAtMost(part: seq<Operation>, one: Operation, operations: seq<Operation>)
    requires InOrderOf(part, [one]) && one in operations
    ensures |part| <= 1 && forall operation | operation in part :: operation in operations
  {
    assert |part| > 1 ==> ComesBefore([one], part[0], part[1]);
  }

  /** A release at the end belongs to what was said. */
  lemma ReleaseTells(messages: seq<Message>, last: Message, context: RoundContext, origin: Db, failed: seq<Timed>,
                     history: seq<Timed>, from: nat)
    requires last.Release? && failed <= history && last.began == |failed|
    requires Tells(messages, context.claim, context.pairingId, origin, failed, from, |failed|)
    requires Was(origin, history, last.answered) && Was(origin, history, last.closed)
    requires OnlyOthers(history, |failed|, last.answered.at)
    requires last.answered.at <= |history| <= last.answered.at + 1 && last.closed.at == |history|
    requires IsReleased(last.answered.db, last.closed.db, last.ids, context.claim, Pending)
    ensures Tells(messages + [last], context.claim, context.pairingId, origin, history, from, |history|)
    ensures RequestsOf(messages + [last]) == RequestsOf(messages)
  {
    assert IsPartOf(last, context.claim, origin, history) && IsConcluded(last, context.claim, context.pairingId);
    hide IsPartOf, IsConcluded, Was, IsReleased;
    TellsOne(last, context.claim, context.pairingId, origin, history, |history|);
    hide Tells, RequestsOf;
    TellsTwice(messages, [last], context.claim, context.pairingId, origin, failed, history, from, |failed|, |history|);
    RequestsOfOne(last);
    RequestsTwice(messages, [last]);
  }

  /** It gets nothing through and fails nothing. */
  lemma ReleaseAdds(messages: seq<Message>, last: Message)
    requires last.Release?
    ensures !Succeeds(messages + [last])
    ensures forall failure | FailsWith(messages, failure) :: FailsWith(messages + [last], failure)
  {
    var all := messages + [last];
    assert all[|messages|] == last && !GetsThrough(all[|messages|]);
    forall failure | FailsWith(messages, failure) ensures FailsWith(all, failure) {
      FailsLonger(messages, [last], failure);
    }
  }

  lemma SinglyStops(messages: seq<Message>, last: Message, operations: seq<Operation>, context: RoundContext, origin: Db,
                    failed: seq<Timed>, history: seq<Timed>, from: nat, wired: seq<Request>, wire: seq<Request>,
                    rejection: Failure, outcome: Outcome<RoundOutcome>, failure: Failure)
    requires EndsSingly(messages, operations, context, origin, failed, from, wired, wire, rejection, outcome)
    requires outcome == Err(failure)
    requires last.Release? && failed <= history && last.began == |failed|
    requires Was(origin, history, last.answered) && Was(origin, history, last.closed)
    requires OnlyOthers(history, |failed|, last.answered.at)
    requires last.answered.at <= |history| <= last.answered.at + 1 && last.closed.at == |history|
    requires IsReleased(last.answered.db, last.closed.db, last.ids, context.claim, Pending)
    ensures EndsSingly(messages + [last], operations, context, origin, history, from, wired, wire, rejection, Err(failure))
  {
    hide Tells, RequestsOf, Was, OnlyOthers, IsReleased, Succeeds, FailsWith, IsSingle;
    ReleaseTells(messages, last, context, origin, failed, history, from);
    ReleaseAdds(messages, last);
  }

  /** The ratings posted are of the round, and no request is among the messages. */
  ghost predicate AllPosts(messages: seq<Message>, ratings: seq<Operation>) {
    forall i | 0 <= i < |messages| :: messages[i].Post? && messages[i].rating in ratings
  }

  ghost predicate Delivers(messages: seq<Message>) {
    exists i | 0 <= i < |messages| :: messages[i].Post? && messages[i].status == Some(204)
  }

  lemma OneMorePost(messages: seq<Message>, message: Message, ratings: seq<Operation>)
    requires AllPosts(messages, ratings) && message.Post? && message.rating in ratings
    ensures AllPosts(messages + [message], ratings) && RequestsOf(messages + [message]) == RequestsOf(messages)
    ensures Delivers(messages + [message]) <==> Delivers(messages) || message.status == Some(204)
  {
    var all := messages + [message];
    RequestsOfOne(message);
    RequestsTwice(messages, [message]);
    hide RequestsOf;
    assert all[|messages|] == message && forall i | 0 <= i < |messages| :: all[i] == messages[i];
    if Delivers(messages) {
      var i :| 0 <= i < |messages| && messages[i].Post? && messages[i].status == Some(204);
      assert all[i].Post? && all[i].status == Some(204);
    }
  }

  /** How far the ratings of a round have come: those posted, in their order, and what they came to. */
  ghost predicate SaidRatings(messages: seq<Message>, ratings: seq<Operation>, i: nat, claim: Claim, pairingId: nat, origin: Db,
                              history: seq<Timed>, from: nat, sent: nat, left: nat, delivered: bool)
  {
    && Tells(messages, claim, pairingId, origin, history, from, |history|)
    && i <= |ratings| && AllPosts(messages, ratings) && InOrderOf(PostedIn(messages), ratings[..i])
    && RequestsOf(messages) == [] && Counted(messages, sent, left) && (delivered <==> Delivers(messages))
  }

  lemma NothingPosted(claim: Claim, pairingId: nat, origin: Db, history: seq<Timed>, ratings: seq<Operation>)
    ensures SaidRatings([], ratings, 0, claim, pairingId, origin, history, |history|, 0, 0, false)
  {
    hide IsPartOf, IsConcluded;
    NothingCounted();
  }

  lemma RatingsWait(messages: seq<Message>, ratings: seq<Operation>, i: nat, claim: Claim, pairingId: nat, origin: Db,
                    history: seq<Timed>, longer: seq<Timed>, from: nat, sent: nat, left: nat, delivered: bool)
    requires SaidRatings(messages, ratings, i, claim, pairingId, origin, history, from, sent, left, delivered)
    requires history <= longer && OnlyOthers(longer, |history|, |longer|)
    ensures SaidRatings(messages, ratings, i, claim, pairingId, origin, longer, from, sent, left, delivered)
  {
    hide Tells, OnlyOthers, RequestsOf, Delivers, AllPosts, Counted, InOrderOf, PostedIn;
    TellsLonger(messages, claim, pairingId, origin, history, longer, from, |history|, |longer|);
  }

  lemma RatingsSkip(messages: seq<Message>, ratings: seq<Operation>, i: nat, claim: Claim, pairingId: nat, origin: Db,
                    history: seq<Timed>, from: nat, sent: nat, left: nat, delivered: bool)
    requires SaidRatings(messages, ratings, i, claim, pairingId, origin, history, from, sent, left, delivered)
    requires i < |ratings|
    ensures SaidRatings(messages, ratings, i + 1, claim, pairingId, origin, history, from, sent, left, delivered)
  {
    hide Tells, RequestsOf, Delivers, AllPosts, Counted, InOrderOf, PostedIn;
    PostedSkips(messages, ratings, i);
  }

  lemma RatingsAreSaid(messages: seq<Message>, ratings: seq<Operation>, claim: Claim, pairingId: nat, origin: Db,
                       history: seq<Timed>, from: nat, sent: nat, left: nat, delivered: bool)
    requires SaidRatings(messages, ratings, |ratings|, claim, pairingId, origin, history, from, sent, left, delivered)
    ensures Tells(messages, claim, pairingId, origin, history, from, |history|)
    ensures AllPosts(messages, ratings) && RequestsOf(messages) == []
    ensures Counted(messages, sent, left) && (delivered <==> Delivers(messages))
  {
    hide Tells, RequestsOf, Delivers, AllPosts, Counted, InOrderOf;
  }

  /** The first message sends, on the context's cursor and in their order, every edit of the round still held. */
  ghost predicate StartsWithEdits(messages: seq<Message>, context: RoundContext, round: seq<Operation>) {
    && messages != [] && messages[0].Exchange? && messages[0].request.lastChangelogId == context.lastChangelogId
    && InOrderOf(messages[0].sent, round)
    && forall operation | operation in round && operation.row.operation != "season_rating"
                          && Held(messages[0].answered.db.log, operation.id, context.claim) :: operation in messages[0].sent
  }

  /** With nobody else acting it sends every edit that can be sent on a base. */
  ghost predicate StartsWithAllItCan(messages: seq<Message>, start: Db, claim: Claim, round: seq<Operation>) {
    && messages != [] && messages[0].Exchange? && messages[0].read.db == start
    && forall operation | operation in round && operation.row.operation != "season_rating"
                          && Held(start.log, operation.id, claim)
                          && CanBeSent(start.animes, messages[0].fetched, operation.row.animeId) :: operation in messages[0].sent
  }

  lemma StartsLonger(messages: seq<Message>, more: seq<Message>, context: RoundContext, round: seq<Operation>, start: Db)
    ensures StartsWithEdits(messages, context, round) ==> StartsWithEdits(messages + more, context, round)
    ensures StartsWithAllItCan(messages, start, context.claim, round) ==>
      StartsWithAllItCan(messages + more, start, context.claim, round)
  {
    assert messages != [] ==> (messages + more)[0] == messages[0];
    hide InOrderOf, CanBeSent, Held;
  }

  /** Messages without a request change neither what got through nor what failed. */
  lemma PostsAfter(messages: seq<Message>, posts: seq<Message>, ratings: seq<Operation>)
    requires AllPosts(posts, ratings)
    ensures AllGetThrough(messages + posts) <==> AllGetThrough(messages)
    ensures Succeeds(messages) ==> Succeeds(messages + posts)
    ensures Delivers(messages + posts) <==> Delivers(messages) || Delivers(posts)
  {
    MessagesJoin(messages, posts);
  }

  lemma MessagesJoin(first: seq<Message>, second: seq<Message>)
    ensures AllGetThrough(first + second) <==> AllGetThrough(first) && AllGetThrough(second)
    ensures Succeeds(first) && AllGetThrough(second) ==> Succeeds(first + second)
    ensures Delivers(first + second) <==> Delivers(first) || Delivers(second)
    ensures forall failure | FailsWith(second, failure) :: FailsWith(first + second, failure)
  {
    var all := first + second;
    assert forall i | 0 <= i < |first| :: all[i] == first[i];
    assert forall i | 0 <= i < |second| :: all[|first| + i] == second[i];
    if AllGetThrough(all) {
      forall i | 0 <= i < |second| && second[i].Exchange? ensures second[i].answer.Accepted? || IsRejected(second[i].answer) {
        assert all[|first| + i] == second[i];
      }
    }
    if Succeeds(first) && AllGetThrough(second) {
      var i :| 0 <= i < |first| && IsAccepted(first[i]);
      assert IsAccepted(all[i]);
    }
    if Delivers(first) {
      var i :| 0 <= i < |first| && first[i].Post? && first[i].status == Some(204);
      assert all[i].Post? && all[i].status == Some(204);
    }
    if Delivers(second) {
      var i :| 0 <= i < |second| && second[i].Post? && second[i].status == Some(204);
      assert all[|first| + i].Post? && all[|first| + i].status == Some(204);
    }
    if Delivers(all) {
      var i :| 0 <= i < |all| && all[i].Post? && all[i].status == Some(204);
      assert i >= |first| ==> second[i - |first|].Post? && second[i - |first|].status == Some(204);
    }
    forall failure | FailsWith(second, failure) ensures FailsWith(all, failure) {
      var i :| 0 <= i < |second| && second[i].Exchange? && !second[i].answer.Accepted? && failure == FailureOf(second[i].answer);
      assert all[|first| + i] == second[i];
    }
  }

  /** What a chain says grows, and goes on starting as it did. */
  lemma SaidMore(messages: seq<Message>, said: seq<Message>, context: RoundContext, origin: Db, told: seq<Timed>,
                 history: seq<Timed>, from: nat, rows: seq<Operation>, start: Db)
    requires told <= history && Tells(messages, context.claim, context.pairingId, origin, told, from, |told|)
    requires Tells(said, context.claim, context.pairingId, origin, history, |told|, |history|)
    ensures Tells(messages + said, context.claim, context.pairingId, origin, history, from, |history|)
    ensures RequestsOf(messages + said) == RequestsOf(messages) + RequestsOf(said)
    ensures messages == [] ==> messages + said == said
    ensures messages != [] && Succeeds(messages) && AllGetThrough(said) ==> Succeeds(messages + said)
    ensures StartsWithEdits(messages, context, rows) ==> StartsWithEdits(messages + said, context, rows)
    ensures StartsWithAllItCan(messages, start, context.claim, rows) ==>
      StartsWithAllItCan(messages + said, start, context.claim, rows)
    ensures forall failure | FailsWith(said, failure) :: FailsWith(messages + said, failure)
  {
    hide Tells, RequestsOf, Succeeds, AllGetThrough, FailsWith, Delivers, StartsWithEdits, StartsWithAllItCan;
    TellsTwice(messages, said, context.claim, context.pairingId, origin, told, history, from, |told|, |history|);
    RequestsTwice(messages, said);
    MessagesJoin(messages, said);
    StartsLonger(messages, said, context, rows, start);
  }

  lemma FailsLonger(messages: seq<Message>, more: seq<Message>, failure: Failure)
    requires FailsWith(messages, failure)
    ensures FailsWith(messages + more, failure)
  {
    var i :| 0 <= i < |messages| && messages[i].Exchange? && !messages[i].answer.Accepted?
             && failure == FailureOf(messages[i].answer);
    assert (messages + more)[i] == messages[i];
  }

  /**
   * A cycle in the run it is part of: one claim, on the first rows that could be taken, then what the messages say and
   * nothing else of this runtime's; the first of them sends the edits of the batch from the stored cursor on.
   */
  ghost predicate IsTold(messages: seq<Message>, taken: Moment, batch: seq<Operation>, claim: Claim, pairing: Pairing,
                         origin: Db, history: seq<Timed>, from: nat)
  {
    && Was(origin, history, taken) && OnlyOthers(history, from, taken.at)
    && taken.at < |history| && history[taken.at] == Timed(claim.claimedAt, ClaimBatch(Js, 200))
    && Takes(taken.db.log, Taken(taken, claim).log, batch, claim, 200)
    && Tells(messages, claim, pairing.id, origin, history, taken.at + 1, |history|)
    && StartsWithEdits(messages, RoundContext(pairing.id, if pairing.cursor <= 1_000_000_000_000 then pairing.cursor else 0, claim),
                       batch)
  }

  /** The state right after the claim. */
  ghost function Taken(taken: Moment, claim: Claim): Db { Next(taken.db, Timed(claim.claimedAt, ClaimBatch(Js, 200))) }

  /** A claim in the run: on the first rows that could be taken, and nothing else of this runtime's around it. */
  ghost predicate IsTaken(taken: Moment, batch: seq<Operation>, claim: Claim, origin: Db, history: seq<Timed>, from: nat) {
    && Was(origin, history, taken) && OnlyOthers(history, from, taken.at)
    && taken.at < |history| && history[taken.at] == Timed(claim.claimedAt, ClaimBatch(Js, 200))
    && Takes(taken.db.log, Taken(taken, claim).log, batch, claim, 200)
    && OnlyOthers(history, taken.at + 1, |history|)
  }

  lemma TakenIs(taken: Moment, claimed: Db, batch: seq<Operation>, claim: Claim, origin: Db, from: nat, asked: seq<Timed>,
                claimedHistory: seq<Timed>, history: seq<Timed>)
    requires claimedHistory == asked + [Timed(claim.claimedAt, ClaimBatch(Js, 200))] && claimedHistory <= history
    requires taken.at == |asked| && Was(origin, asked, taken) && OnlyOthers(asked, from, |asked|)
    requires claimed == Taken(taken, claim) && Takes(taken.db.log, claimed.log, batch, claim, 200)
    requires OnlyOthers(history, |claimedHistory|, |history|)
    ensures IsTaken(taken, batch, claim, origin, history, from)
  {
    hide Run, Takes, Was, OnlyOthers, Taken;
    assert asked <= history;
    WasLonger(origin, asked, history, taken);
    OthersStay(asked, history, from, |asked|);
  }

  lemma CycleIsTold(messages: seq<Message>, taken: Moment, batch: seq<Operation>, claim: Claim, pairing: Pairing, sent: int,
                    origin: Db, from: nat, ready: seq<Timed>, history: seq<Timed>)
    requires IsTaken(taken, batch, claim, origin, ready, from) && ready <= history
    requires sent == if pairing.cursor <= 1_000_000_000_000 then pairing.cursor else 0
    requires Tells(messages, claim, pairing.id, origin, history, |ready|, |history|)
    requires StartsWithEdits(messages, RoundContext(pairing.id, sent, claim), batch)
    ensures IsTold(messages, taken, batch, claim, pairing, origin, history, from)
  {
    hide Run, Next, StartsWithEdits, Takes, Was, OnlyOthers, Tells, Taken;
    WasLonger(origin, ready, history, taken);
    OthersStay(ready, history, from, taken.at);
    TellsLater(messages, claim, pairing.id, origin, ready, history, taken.at + 1);
  }

  lemma BatchIsTaken(origin: Db, asked: seq<Timed>, history: seq<Timed>, claim: Claim, taken: Moment, after: Moment)
    requires history == asked + [Timed(claim.claimedAt, ClaimBatch(Js, 200))] && taken.at == |asked| && after.at == |history|
    requires Was(origin, asked, taken) && Was(origin, history, after)
    ensures after.db == Taken(taken, claim)
  {
    hide Next;
    RunExtends(origin, asked, Timed(claim.claimedAt, ClaimBatch(Js, 200)));
    assert asked[..|asked|] == asked && history[..|history|] == history;
  }

  lemma TellsLater(messages: seq<Message>, claim: Claim, pairingId: nat, origin: Db, ready: seq<Timed>, history: seq<Timed>,
                   from: nat)
    requires ready <= history && OnlyOthers(ready, from, |ready|)
    requires Tells(messages, claim, pairingId, origin, history, |ready|, |history|)
    ensures Tells(messages, claim, pairingId, origin, history, from, |history|)
  {
    assert Tells([], claim, pairingId, origin, ready, from, |ready|);
    hide Tells, OnlyOthers;
    TellsTwice([], messages, claim, pairingId, origin, ready, history, from, |ready|, |history|);
    assert [] + messages == messages;
  }
}
