/**
 * One cycle: a claim and the chain of reconcile and rating rounds it leads to. The bridge may answer anything, and
 * the other runtime and the screens may act at every wait.
 */
module ReconcileCycle {
  import opened Basics
  import opened OutboxTable
  import opened Protocol
  import opened OutboxSafety
  import opened OutboxHistory
  import opened ReconcileAnswer
  import opened CycleRelations
  import opened StoreFacts
  import opened LocalStore
  import opened Transcript
  import opened TranscriptFacts
  import opened CycleTranscript

  const RECONCILE_BACKLOG_BATCH_LIMIT: nat := 200
  const BRIDGE_NOT_FOUND := "bridge_404"
  const TOKEN_MISSING := "token_missing"

  // ----- The bridge -----

  /** Sends one reconcile request; the others act while it is on the wire. */
  method Reconcile(store: Store, request: Request) returns (result: ReconcileResult)
    requires store.Valid() && WellFormedRequest(request)
    modifies store`log, store`nextId, store`animes, store`staged, store`pairing, store`now, store`history,
      store`theirs, store`others, store`wire
    ensures store.Valid() && old(store.history) <= store.history && Undisturbed(old(store.State()), store.State())
    ensures OnlyOthers(store.history, |old(store.history)|, |store.history|)
    ensures |store.others| <= |old(store.others)|
    ensures |store.others| == |old(store.others)| ==> store.State() == old(store.State())
    ensures store.wire == old(store.wire) + [request]
  {
    hide Run, Next, Traced, Confirmations, Sound, Undisturbed;
    store.wire := store.wire + [request];
    result := *;
    store.Interfere();
  }

  method GetAnime(animeId: AnimeId) returns (result: AnimeResult) {
    result := *;
  }

  /** What the answer about one anime means for its key. */
  function FetchOutcome(result: AnimeResult): (outcome: TokenOutcome)
    ensures outcome.Token? <==> result.Http? && result.status != 404 && result.ok && result.token.Some?
    ensures outcome.Unresolved? <==> result.Http? && (result.status == 404 || (result.ok && result.token.None?))
    ensures MeansFor(result, outcome)
  {
    match result
    case NoAnswer => Unreachable
    case Http(status, ok, token) =>
      if status == 404 then Unresolved(BRIDGE_NOT_FOUND)
      else if !ok then Unreachable
      else if token.None? then Unresolved(TOKEN_MISSING)
      else Token(token.value)
  }

  // ----- Rows still held -----

  /** The operations whose ids are in `held`, in order. */
  function OnlyHeld(operations: seq<Operation>, held: set<nat>): seq<Operation> {
    if operations == [] then []
    else
      var last := operations[|operations| - 1];
      var before := OnlyHeld(operations[..|operations| - 1], held);
      if last.id in held then before + [last] else before
  }

  lemma {:induction false} OnlyHeldAre(operations: seq<Operation>, held: set<nat>)
    ensures forall operation :: operation in OnlyHeld(operations, held) <==> operation in operations && operation.id in held
    ensures |OnlyHeld(operations, held)| <= |operations|
    ensures AnimesDiffer(operations) ==> AnimesDiffer(OnlyHeld(operations, held))
    ensures OnePerAnime(operations) ==> OnePerAnime(OnlyHeld(operations, held))
  {
    if operations != [] {
      var before, last := operations[..|operations| - 1], operations[|operations| - 1];
      OnlyHeldAre(before, held);
      assert operations == before + [last];
      var kept := OnlyHeld(before, held);
      forall i | 0 <= i < |kept|
        ensures AnimesDiffer(operations) ==> kept[i].row.animeId != last.row.animeId
        ensures OnePerAnime(operations) ==> kept[i].id != last.id
      {
        assert kept[i] in before;
        var k :| 0 <= k < |before| && before[k] == kept[i];
        assert operations[k] == before[k] && operations[|before|] == last;
      }
    }
  }

  lemma {:induction false} OnlyHeldInOrder(operations: seq<Operation>, held: set<nat>)
    ensures InOrderOf(OnlyHeld(operations, held), operations)
  {
    if operations != [] {
      var before, last := operations[..|operations| - 1], operations[|operations| - 1];
      OnlyHeldInOrder(before, held);
      OneMoreInOrder(OnlyHeld(before, held), before, last);
      assert operations == before + [last];
      hide InOrderOf;
    }
  }

  lemma OnlyHeldAreCarried(operations: seq<Operation>, held: set<nat>, db: Db, claim: Claim)
    requires Carried(operations, db, claim)
    ensures Carried(OnlyHeld(operations, held), db, claim)
  {
    OnlyHeldAre(operations, held);
    var kept := OnlyHeld(operations, held);
    forall i | 0 <= i < |kept| ensures Known(kept[i], db) && Current(kept[i], db.log, claim) {
      assert kept[i] in operations;
    }
  }

  /** Nothing that happens elsewhere makes a carried row not carried. */
  lemma CarriedThroughOthers(operations: seq<Operation>, before: Db, after: Db, claim: Claim)
    requires Carried(operations, before, claim) && Later(before, after)
    requires Handed(before.log, after.log, claim, {}, {})
    ensures Carried(operations, after, claim)
  {
    assert IdsOf([]) == {};
    CarriedLater(operations, before, after, claim, {}, []);
  }

  // ----- Fetch-first -----

  function StoredTokens(animes: AnimeTable.Animes, animeIds: set<AnimeId>): Tokens {
    map animeId | animeId in animeIds && animeId in animes && animes[animeId].token.Some? :: animes[animeId].token.value
  }

  /**
   * A held row whose anime has no stored token is never sent without a base: each such anime is fetched once, and only
   * rows that can now carry one, still held, come back.
   */
  method ResolveMissingTokens(store: Store, claim: Claim, heldOps: seq<Operation>, stored: Tokens)
    returns (pending: seq<Operation>, tokens: Tokens, ghost fetched: map<AnimeId, AnimeResult>)
    requires store.Valid() && claim.owner == Js
    requires Carried(heldOps, store.State(), claim) && OnePerAnime(heldOps)
    modifies store`log, store`nextId, store`animes, store`staged, store`pairing, store`now, store`history,
      store`ours, store`theirs, store`others
    ensures store.Valid() && old(store.history) <= store.history
    ensures store.ours == old(store.ours)
    ensures |store.others| <= |old(store.others)|
    ensures Later(old(store.State()), store.State()) && Handed(old(store.log), store.log, claim, {}, {})
    ensures |store.others| == |old(store.others)| ==> QueuedIds(store.log) <= old(QueuedIds(store.log))
    ensures Carried(pending, store.State(), claim) && OnePerAnime(pending) && |pending| <= |heldOps|
    ensures forall operation | operation in pending :: operation in heldOps && operation.row.animeId in tokens
    ensures forall operation | operation in heldOps && Held(store.log, operation.id, claim) :: operation in pending
    ensures (forall operation | operation in heldOps :: Held(old(store.log), operation.id, claim)) ==>
      (forall operation | operation in pending :: Held(store.log, operation.id, claim))
    ensures heldOps == [] ==> pending == [] && store.State() == old(store.State()) && |store.others| == |old(store.others)|
    ensures InOrderOf(pending, heldOps)
    ensures OnlyFetches(store.history, |old(store.history)|, |store.history|, claim, fetched)
    ensures FetchesWhatIsMissing(stored, AnimeIdsOf(heldOps), fetched, tokens)
    ensures |store.others| == |old(store.others)| ==>
      forall operation | operation in heldOps && Held(old(store.log), operation.id, claim) && operation.row.animeId in tokens ::
        operation in pending
  {
    hide Later, Run, Next, Traced, Confirmations, Sound, Carried, Handed, FetchFirst, OnlyHeld, MeansFor, InOrderOf, OnlyOthers,
      OnlyFetches, OnePerAnime, QueuedIds, WellFormedRequest, FetchesWhatIsMissing;
    var missing := MissingAnimes(heldOps, stored);
    tokens := stored;
    fetched := map[];
    assert missing != [] ==> missing[0] in AnimeIdsOf(heldOps);
    if missing == [] {
      NothingHappened(store.State(), claim);
      AllInOrder(heldOps);
      NothingFetched(store.history, claim, fetched);
      MissingIsFetched(stored, AnimeIdsOf(heldOps), missing, map[], fetched, tokens);
      return heldOps, tokens, fetched;
    }
    var outcomes;
    outcomes, fetched := FetchOutcomes(store, missing);
    CarriedThroughOthers(heldOps, old(store.State()), store.State(), claim);
    ghost var before, asked := store.State(), store.history;
    var stillHeld := store.WriteTokenOutcomes(heldOps, missing, outcomes, claim);
    FetchIsTold(asked, store.history, |old(store.history)|, store.now, claim, IdsOf(heldOps), outcomes, fetched);
    FetchLeaves(old(store.State()), before, store.State(), heldOps, outcomes, claim, stillHeld);
    tokens := AddFetchedTokens(stored, missing, outcomes);
    MissingIsFetched(stored, AnimeIdsOf(heldOps), missing, outcomes, fetched, tokens);
    pending := OnlyHeld(heldOps, stillHeld);
    OnlyHeldAre(heldOps, stillHeld);
    OnlyHeldInOrder(heldOps, stillHeld);
    OnlyHeldAreCarried(heldOps, stillHeld, store.State(), claim);
    forall operation | operation in pending ensures operation.row.animeId in tokens {
      HeldAfterFetchHasToken(before, heldOps, outcomes, claim, stillHeld, operation);
    }
    forall operation | operation in heldOps && Held(before.log, operation.id, claim) && operation.row.animeId in tokens
      ensures operation in pending
    {
      TokenKeepsHeld(before, heldOps, outcomes, claim, operation);
    }
  }

  /** The stored tokens and, for each anime that had none, the one fetched for it. */
  method AddFetchedTokens(stored: Tokens, missing: seq<AnimeId>, outcomes: map<AnimeId, TokenOutcome>) returns (tokens: Tokens)
    requires forall animeId | animeId in missing :: animeId in outcomes
    ensures forall animeId :: animeId in tokens <==> animeId in stored || (animeId in missing && outcomes[animeId].Token?)
    ensures forall animeId | animeId in tokens ::
      tokens[animeId] == if animeId in missing && outcomes[animeId].Token? then outcomes[animeId].token else stored[animeId]
  {
    tokens := stored;
    for i := 0 to |missing|
      invariant forall animeId :: animeId in tokens <==>
        animeId in stored || (animeId in missing[..i] && outcomes[animeId].Token?)
      invariant forall animeId | animeId in tokens ::
        tokens[animeId] == if animeId in missing[..i] && outcomes[animeId].Token? then outcomes[animeId].token else stored[animeId]
    {
      assert missing[..i + 1] == missing[..i] + [missing[i]];
      if outcomes[missing[i]].Token? {
        tokens := tokens[missing[i] := outcomes[missing[i]].token];
      }
    }
    assert missing[..|missing|] == missing;
  }

  /** What has no stored token is fetched, and a row has a token exactly when one is stored or was fetched. */
  ghost predicate FetchesWhatIsMissing(stored: Tokens, animeIds: set<AnimeId>, fetched: map<AnimeId, AnimeResult>, tokens: Tokens) {
    && fetched.Keys == animeIds - stored.Keys
    && (forall animeId | animeId in tokens ::
          if animeId in stored then tokens[animeId] == stored[animeId] else IsBase(map[], fetched, animeId, tokens[animeId]))
    && forall animeId | animeId in animeIds && (animeId in stored || CanBeSent(map[], fetched, animeId)) :: animeId in tokens
  }

  lemma MissingIsFetched(stored: Tokens, animeIds: set<AnimeId>, missing: seq<AnimeId>, outcomes: map<AnimeId, TokenOutcome>,
                         fetched: map<AnimeId, AnimeResult>, tokens: Tokens)
    requires forall animeId :: animeId in missing <==> animeId in animeIds && animeId !in stored
    requires forall animeId :: animeId in outcomes <==> animeId in missing
    requires fetched.Keys == outcomes.Keys && forall animeId | animeId in fetched :: MeansFor(fetched[animeId], outcomes[animeId])
    requires forall animeId :: animeId in tokens <==> animeId in stored || (animeId in missing && outcomes[animeId].Token?)
    requires forall animeId | animeId in tokens ::
      tokens[animeId] == if animeId in missing && outcomes[animeId].Token? then outcomes[animeId].token else stored[animeId]
    ensures FetchesWhatIsMissing(stored, animeIds, fetched, tokens)
  {
    hide MeansFor, IsBase, CanBeSent;
    forall animeId | animeId in missing
      ensures outcomes[animeId].Token? <==> CanBeSent(map[], fetched, animeId)
      ensures outcomes[animeId].Token? ==> IsBase(map[], fetched, animeId, outcomes[animeId].token)
    {
      TokenIsBase(fetched, animeId, outcomes[animeId]);
    }
  }

  lemma TokenIsBase(fetched: map<AnimeId, AnimeResult>, animeId: AnimeId, outcome: TokenOutcome)
    requires animeId in fetched && MeansFor(fetched[animeId], outcome)
    ensures outcome.Token? <==> CanBeSent(map[], fetched, animeId)
    ensures outcome.Token? ==> IsBase(map[], fetched, animeId, outcome.token)
  {
    if outcome.Token? {
      assert IsBase(map[], fetched, animeId, outcome.token);
    }
  }

  lemma TokenKeepsHeld(before: Db, heldOps: seq<Operation>, outcomes: map<AnimeId, TokenOutcome>, claim: Claim,
                       operation: Operation)
    requires Carried(heldOps, before, claim) && operation in heldOps && Held(before.log, operation.id, claim)
    requires operation.row.animeId in outcomes ==> outcomes[operation.row.animeId].Token?
    ensures Held(FetchFirst(before.log, IdsOf(heldOps), outcomes, claim), operation.id, claim)
  {
    var i :| 0 <= i < |heldOps| && heldOps[i] == operation;
    assert Current(heldOps[i], before.log, claim);
    FetchFirstRowIs(before.log, IdsOf(heldOps), outcomes, claim, operation.id);
    hide FetchFirst;
  }

  lemma NothingHappened(db: Db, claim: Claim)
    ensures Later(db, db) && Handed(db.log, db.log, claim, {}, {})
  {
  }

  /** The animes of the rows with no stored token, each once. */
  method MissingAnimes(operations: seq<Operation>, stored: Tokens) returns (missing: seq<AnimeId>)
    ensures forall animeId :: animeId in missing <==> animeId in AnimeIdsOf(operations) && animeId !in stored
    ensures forall i, j | 0 <= i < j < |missing| :: missing[i] != missing[j]
  {
    missing := [];
    for i := 0 to |operations|
      invariant forall animeId :: animeId in missing <==>
        exists k | 0 <= k < i :: operations[k].row.animeId == animeId && animeId !in stored
      invariant forall k, m | 0 <= k < m < |missing| :: missing[k] != missing[m]
    {
      if operations[i].row.animeId !in stored && operations[i].row.animeId !in missing {
        missing := missing + [operations[i].row.animeId];
      }
    }
  }

  /** One request per missing anime, one after the other. */
  method FetchOutcomes(store: Store, missing: seq<AnimeId>)
    returns (outcomes: map<AnimeId, TokenOutcome>, ghost fetched: map<AnimeId, AnimeResult>)
    requires store.Valid()
    modifies store`log, store`nextId, store`animes, store`staged, store`pairing, store`now, store`history,
      store`theirs, store`others
    ensures store.Valid() && old(store.history) <= store.history && Undisturbed(old(store.State()), store.State())
    ensures |store.others| <= |old(store.others)|
    ensures |store.others| == |old(store.others)| ==> store.State() == old(store.State())
    ensures OnlyOthers(store.history, |old(store.history)|, |store.history|)
    ensures forall animeId :: animeId in outcomes <==> animeId in missing
    ensures fetched.Keys == outcomes.Keys && forall animeId | animeId in fetched :: MeansFor(fetched[animeId], outcomes[animeId])
  {
    hide Run, Next, Traced, Confirmations, Sound, Undisturbed, MeansFor, FetchOutcome;
    UndisturbedByNothing(store.State());
    outcomes, fetched := map[], map[];
    for i := 0 to |missing|
      invariant store.Valid() && old(store.history) <= store.history && Undisturbed(old(store.State()), store.State())
      invariant |store.others| <= |old(store.others)|
      invariant |store.others| == |old(store.others)| ==> store.State() == old(store.State())
      invariant OnlyOthers(store.history, |old(store.history)|, |store.history|)
      invariant forall animeId :: animeId in outcomes <==> animeId in missing[..i]
      invariant fetched.Keys == outcomes.Keys
      invariant forall animeId | animeId in fetched :: MeansFor(fetched[animeId], outcomes[animeId])
    {
      assert missing[..i + 1] == missing[..i] + [missing[i]];
      var result := GetAnime(missing[i]);
      outcomes, fetched := outcomes[missing[i] := FetchOutcome(result)], fetched[missing[i] := result];
      ghost var before := store.State();
      store.Interfere();
      UndisturbedTwice(old(store.State()), before, store.State());
    }
    assert missing[..|missing|] == missing;
  }

  /** What the fetch-first transaction leaves under the claim. */
  lemma FetchLeaves(start: Db, before: Db, after: Db, heldOps: seq<Operation>, outcomes: map<AnimeId, TokenOutcome>,
                    claim: Claim, stillHeld: set<nat>)
    requires Later(start, before) && Later(before, after) && Handed(start.log, before.log, claim, {}, {})
    requires after.log == FetchFirst(before.log, IdsOf(heldOps), outcomes, claim)
    requires stillHeld == HeldIds(after.log, IdsOf(heldOps), claim)
    requires Carried(heldOps, before, claim)
    ensures Later(start, after) && Handed(start.log, after.log, claim, {}, {}) && Carried(heldOps, after, claim)
    ensures QueuedIds(after.log) <= QueuedIds(before.log)
    ensures forall operation | operation in heldOps :: operation.id in stillHeld <==> Held(after.log, operation.id, claim)
  {
    FetchFirstHandsBack(before.log, IdsOf(heldOps), outcomes, claim);
    FetchFirstShrinksQueue(before.log, IdsOf(heldOps), outcomes, claim);
    hide FetchFirst;
    LaterTwice(start, before, after);
    HandedTwice(start.log, before.log, after.log, claim, {}, {}, {}, {});
    CarriedThroughOthers(heldOps, before, after, claim);
    forall operation | operation in heldOps ensures operation.id in IdsOf(heldOps) {
      var i :| 0 <= i < |heldOps| && heldOps[i] == operation;
    }
  }

  lemma HeldAfterFetchHasToken(before: Db, heldOps: seq<Operation>, outcomes: map<AnimeId, TokenOutcome>, claim: Claim,
                               stillHeld: set<nat>, operation: Operation)
    requires Carried(heldOps, before, claim) && operation in heldOps && operation.id in stillHeld
    requires stillHeld == HeldIds(FetchFirst(before.log, IdsOf(heldOps), outcomes, claim), IdsOf(heldOps), claim)
    ensures operation.row.animeId in outcomes ==> outcomes[operation.row.animeId].Token?
  {
    var i :| 0 <= i < |heldOps| && heldOps[i] == operation;
    if operation.row.animeId in outcomes {
      FetchedRowsHaveTokens(before, heldOps, outcomes, claim, i);
    }
  }

  // ----- A reconcile round -----

  /** The rows of a round still held, in their order; the others may act before they are read, and before the tokens are. */
  method ReadHeld(store: Store, claim: Claim, claimed: seq<Operation>) returns (heldOps: seq<Operation>)
    requires store.Valid() && claim.owner == Js && Carried(claimed, store.State(), claim)
    modifies store`log, store`nextId, store`animes, store`staged, store`pairing, store`now, store`history,
      store`theirs, store`others
    ensures store.Valid() && old(store.history) <= store.history && Undisturbed(old(store.State()), store.State())
    ensures OnlyOthers(store.history, |old(store.history)|, |store.history|)
    ensures |store.others| <= |old(store.others)|
    ensures |store.others| == |old(store.others)| ==>
      && store.State() == old(store.State())
      && forall operation | operation in heldOps :: Held(store.log, operation.id, claim)
    ensures Carried(heldOps, store.State(), claim) && OnePerAnime(heldOps) && InOrderOf(heldOps, claimed)
    ensures |heldOps| <= |claimed| && forall operation | operation in heldOps :: operation in claimed
    ensures forall operation | operation in claimed && Held(store.log, operation.id, claim) :: operation in heldOps
  {
    hide Run, Next, Traced, Confirmations, Sound, Carried, OnlyHeld, Later, InOrderOf, OnlyOthers, WellFormedRequest, Exclusive;
    store.Interfere();
    ghost var start, first, once := old(store.State()), store.State(), store.history;
    CarriedThroughOthers(claimed, start, first, claim);
    var held := HeldIds(store.log, IdsOf(claimed), claim);
    heldOps := OnlyHeld(claimed, held);
    OnlyHeldAre(claimed, held);
    OnlyHeldInOrder(claimed, held);
    OnlyHeldAreCarried(claimed, held, first, claim);
    assert forall operation | operation in heldOps :: operation in claimed && Held(first.log, operation.id, claim);
    StoredAreDistinct(heldOps, first, claim);
    hide Handed, OnePerAnime;
    store.Interfere();
    ReadAgain(start, first, store.State(), claim, heldOps);
    OthersLonger(once, store.history, |old(store.history)|, |once|, |store.history|);
    forall operation | operation in claimed && Held(store.log, operation.id, claim) ensures operation in heldOps {
      HeldEarlier(first, store.State(), claim, operation);
      var i :| 0 <= i < |claimed| && claimed[i] == operation;
    }
  }

  lemma HeldEarlier(before: Db, after: Db, claim: Claim, operation: Operation)
    requires Undisturbed(before, after) && claim.owner == Js && Held(after.log, operation.id, claim)
    ensures Held(before.log, operation.id, claim)
  {
    assert Handed(before.log, after.log, claim, {}, {});
  }

  lemma ReadAgain(start: Db, first: Db, second: Db, claim: Claim, heldOps: seq<Operation>)
    requires Undisturbed(start, first) && Undisturbed(first, second) && claim.owner == Js
    requires Carried(heldOps, first, claim)
    ensures Undisturbed(start, second) && Carried(heldOps, second, claim)
  {
    UndisturbedTwice(start, first, second);
    CarriedThroughOthers(heldOps, first, second, claim);
  }

  /** The rows of a round still held, each with a base to be sent on. */
  method PrepareRound(store: Store, claim: Claim, claimed: seq<Operation>)
    returns (pending: seq<Operation>, tokens: Tokens, ghost read: Moment, ghost fetched: map<AnimeId, AnimeResult>)
    requires store.Valid() && claim.owner == Js
    requires Carried(claimed, store.State(), claim) && EditsOnly(claimed)
    modifies store`log, store`nextId, store`animes, store`staged, store`pairing, store`now, store`history,
      store`ours, store`theirs, store`others
    ensures store.Valid() && old(store.history) <= store.history
    ensures store.ours == old(store.ours) && |store.others| <= |old(store.others)|
    ensures Later(old(store.State()), store.State()) && Handed(old(store.log), store.log, claim, {}, {})
    ensures |store.others| == |old(store.others)| ==> QueuedIds(store.log) <= old(QueuedIds(store.log))
    ensures |store.others| == |old(store.others)| ==>
      (forall operation | operation in pending :: Held(store.log, operation.id, claim))
    ensures Carried(pending, store.State(), claim) && OnePerAnime(pending) && EditsOnly(pending)
    ensures |pending| <= |claimed|
    ensures forall operation | operation in pending :: operation in claimed && operation.row.animeId in tokens
    ensures forall operation | operation in claimed && Held(store.log, operation.id, claim) :: operation in pending
    ensures claimed == [] && |store.others| == |old(store.others)| ==> store.State() == old(store.State())
    ensures InOrderOf(pending, claimed)
    ensures Was(store.origin, store.history, read) && OnlyOthers(store.history, |old(store.history)|, read.at)
    ensures OnlyFetches(store.history, read.at, |store.history|, claim, fetched)
    ensures forall operation | operation in pending ::
      IsBase(read.db.animes, fetched, operation.row.animeId, tokens[operation.row.animeId])
    ensures |store.others| == |old(store.others)| ==>
      && read.db == old(store.State())
      && forall operation | operation in claimed && Held(old(store.log), operation.id, claim)
                            && CanBeSent(read.db.animes, fetched, operation.row.animeId) :: operation in pending
  {
    hide Run, Next, Traced, Confirmations, Sound, Carried, Handed, OnlyHeld, Later, InOrderOf, OnlyOthers, IsBase, OnlyFetches,
      Was, CanBeSent, FetchesWhatIsMissing, StoredTokens, QueuedIds, WellFormedRequest, Exclusive;
    ghost var start := store.State();
    var heldOps := ReadHeld(store, claim, claimed);
    ghost var second, twice := store.State(), store.history;
    read := Moment(|twice|, second);
    StateIsRun(store);
    var stored := StoredTokens(store.animes, AnimeIdsOf(heldOps));
    pending, tokens, fetched := ResolveMissingTokens(store, claim, heldOps, stored);
    WasLonger(store.origin, twice, store.history, read);
    OthersStay(twice, store.history, |old(store.history)|, read.at);
    InOrderTwice(pending, heldOps, claimed);
    forall operation | operation in pending
      ensures IsBase(read.db.animes, fetched, operation.row.animeId, tokens[operation.row.animeId])
    {
      BaseIsRead(heldOps, operation, second.animes, fetched, tokens);
    }
    forall operation | operation in heldOps && CanBeSent(second.animes, fetched, operation.row.animeId)
      ensures operation.row.animeId in tokens
    {
      SendableHasToken(heldOps, operation, second.animes, fetched, tokens);
    }
    HandedOn(start, second, store.State(), claim);
    forall operation | operation in claimed && Held(store.log, operation.id, claim) ensures operation in pending {
      HeldBefore(second, store.State(), claim, operation);
    }
    assert EditsOnly(pending) by {
      forall i | 0 <= i < |pending| ensures pending[i].row.operation != SEASON_RATING_OPERATION {
        assert pending[i] in pending;
      }
    }
  }

  lemma StateIsRun(store: Store)
    requires store.Valid()
    ensures Was(store.origin, store.history, Moment(|store.history|, store.State()))
    ensures Exclusive(store.log, store.now)
  {
    assert store.history[..|store.history|] == store.history;
  }

  lemma SendableHasToken(heldOps: seq<Operation>, operation: Operation, animes: AnimeTable.Animes,
                         fetched: map<AnimeId, AnimeResult>, tokens: Tokens)
    requires operation in heldOps && CanBeSent(animes, fetched, operation.row.animeId)
    requires FetchesWhatIsMissing(StoredTokens(animes, AnimeIdsOf(heldOps)), AnimeIdsOf(heldOps), fetched, tokens)
    ensures operation.row.animeId in tokens
  {
    var i :| 0 <= i < |heldOps| && heldOps[i] == operation;
    var base: int :| IsBase(animes, fetched, operation.row.animeId, base);
    if operation.row.animeId !in StoredTokens(animes, AnimeIdsOf(heldOps)) {
      assert IsBase(map[], fetched, operation.row.animeId, base);
    }
  }

  /** A row is sent on the token read for its anime, or on the one fetched where none was stored. */
  lemma BaseIsRead(heldOps: seq<Operation>, operation: Operation, animes: AnimeTable.Animes,
                   fetched: map<AnimeId, AnimeResult>, tokens: Tokens)
    requires operation in heldOps && operation.row.animeId in tokens
    requires FetchesWhatIsMissing(StoredTokens(animes, AnimeIdsOf(heldOps)), AnimeIdsOf(heldOps), fetched, tokens)
    ensures IsBase(animes, fetched, operation.row.animeId, tokens[operation.row.animeId])
  {
    var i :| 0 <= i < |heldOps| && heldOps[i] == operation;
    assert operation.row.animeId in AnimeIdsOf(heldOps);
  }

  lemma HandedOn(a: Db, b: Db, c: Db, claim: Claim)
    requires Undisturbed(a, b) && claim.owner == Js
    requires Later(b, c) && Handed(b.log, c.log, claim, {}, {})
    ensures Later(a, c) && Handed(a.log, c.log, claim, {}, {})
  {
    LaterTwice(a, b, c);
    HandedTwice(a.log, b.log, c.log, claim, {}, {}, {}, {});
  }

  lemma HeldBefore(before: Db, after: Db, claim: Claim, operation: Operation)
    requires Handed(before.log, after.log, claim, {}, {}) && Held(after.log, operation.id, claim)
    ensures Held(before.log, operation.id, claim)
  {
  }

  /** The edits of a round the answer gives no evidence for. */
  method CollectUnconfirmed(operations: seq<Operation>, response: Response, confirmed: seq<nat>)
    returns (rest: seq<Operation>)
    requires OnePerAnime(operations)
    requires forall id :: id in confirmed <==>
      exists i | 0 <= i < |operations| ::
        operations[i].id == id && IsOperationConfirmed(operations[i], response.applied, response.changes)
    ensures rest == Unconfirmed(operations, response)
  {
    rest := [];
    for i := 0 to |operations|
      invariant rest == Unconfirmed(operations[..i], response)
    {
      assert operations[..i + 1][..i] == operations[..i];
      if operations[i].id !in confirmed {
        rest := rest + [operations[i]];
      }
    }
    assert operations[..|operations|] == operations;
  }

  /** Settles one answer: its evidence, its rejections and its tokens, then the one transaction. */
  method ApplyAnswer(store: Store, context: RoundContext, operations: seq<Operation>, response: Response, tokens: Tokens)
    returns (round: RoundOutcome)
    requires store.Valid() && context.claim.owner == Js
    requires Carried(operations, store.State(), context.claim) && OnePerAnime(operations) && EditsOnly(operations)
    requires ReadFromCursor(store.pairing, context.pairingId, context.lastChangelogId)
    modifies store`log, store`animes, store`staged, store`pairing, store`now, store`history, store`ours
    ensures store.Valid() && old(store.history) <= store.history
    ensures Round(old(store.State()), store.State(), true, context.claim, operations, round.successors)
    ensures ReadFromCursor(store.pairing, context.pairingId, round.nextLastChangelogId)
    ensures store.ours == old(store.ours) + round.confirmedCount && round.sentCount == |operations|
    ensures (forall operation | operation in operations :: Held(old(store.log), operation.id, context.claim))
            && round.unconfirmedCount == 0
        ==> Cleared(old(store.log), store.log, IdsOf(operations), round.sentCount)
    ensures operations == [] ==> store.log == old(store.log) && round.unconfirmedCount == 0
    ensures IsAnswerOf(old(store.State()), store.State(), operations, response, tokens, context.lastChangelogId, context.pairingId,
                       context.claim)
    ensures |store.history| == |old(store.history)| + 1 && old(store.now) <= store.now
    ensures IsOutcomeOf(round, old(store.State()), store.now, operations, response, tokens, context)
  {
    hide Run, Next, Traced, Confirmations, WellFormed, Exclusive, Carried, Handed, Later, FatesOf, SettleRound, ChainRows,
      AdvanceCursor, Round, Cleared, AnswerStep;
    var confirmedTokens := CollectConfirmedAnimeTokens(response.applied);
    var confirmed := GetConfirmedOperationIds(operations, response.applied, response.changes);
    var rest := CollectUnconfirmed(operations, response, confirmed);
    var remaining, deadLetters, conflicts := ClassifyUnconfirmedOperations(rest, response.applied, tokens);
    AdvancedCursorIsBehind(store.pairing, context.pairingId, context.lastChangelogId,
                           AnsweredCursor(response, context.lastChangelogId));
    var count, successors := store.SettleAnswer(operations, response, tokens, confirmedTokens, conflicts, confirmed,
      remaining, deadLetters, context.lastChangelogId, context.pairingId, context.claim);
    AnswerLeaves(old(store.State()), store.State(), operations, response, tokens, context.claim, successors);
    NothingToSettle(old(store.log), response, tokens, context.claim, store.now);
    LaterMeansLater(old(store.State()), store.State());
    round := RoundOutcome(|operations|, count, |rest|, AnsweredCursor(response, context.lastChangelogId), successors);
  }

  lemma RequestIsWellFormed(lastChangelogId: int, operations: seq<Operation>, tokens: Tokens)
    requires AnimesDiffer(operations)
    requires forall operation | operation in operations :: operation.row.animeId in tokens
    ensures WellFormedRequest(BuildReconcileRequestBody(lastChangelogId, operations, tokens))
  {
    assert forall i | 0 <= i < |operations| :: operations[i] in operations;
  }

  /** Releases held rows in a transaction of its own, whatever happened while it waited for the write lock. */
  method ReleaseOperations(store: Store, ids: set<nat>, claim: Claim, fate: Fate) returns (ghost answered: Moment)
    requires store.Valid() && claim.owner == Js && (fate == Return || fate == GiveUp(None))
    modifies store`log, store`nextId, store`animes, store`staged, store`pairing, store`now, store`history,
      store`ours, store`theirs, store`others
    ensures store.Valid() && old(store.history) <= store.history && store.ours == old(store.ours)
    ensures |store.others| <= |old(store.others)|
    ensures Later(old(store.State()), store.State()) && Handed(old(store.log), store.log, claim, ids, {})
    ensures |store.others| == |old(store.others)| ==> QueuedIds(store.log) <= old(QueuedIds(store.log))
    ensures Was(store.origin, store.history, answered) && OnlyOthers(store.history, |old(store.history)|, answered.at)
    ensures Handed(old(store.log), answered.db.log, claim, {}, {})
    ensures answered.at <= |store.history| <= answered.at + 1
    ensures IsReleased(answered.db, store.State(), ids, claim, if fate == Return then Pending else DeadLetter)
  {
    hide Run, Next, Traced, Confirmations, Sound, Handed, Later, UpdateHeld, OnlyOthers, Was, IsReleased;
    store.Interfere();
    ghost var before, waited := store.State(), store.history;
    answered := Moment(|waited|, before);
    StateIsRun(store);
    store.ReleaseHeld(ids, claim, fate);
    WasLonger(store.origin, waited, store.history, answered);
    OthersStay(waited, store.history, |old(store.history)|, answered.at);
    ReleaseMeans(before, store.State(), ids, claim, fate, if fate == Return then Pending else DeadLetter);
    LaterTwice(old(store.State()), before, store.State());
    HandedTwice(old(store.log), before.log, store.log, claim, {}, ids, {}, {});
    assert {} + ids == ids && ({} - ids) + {} == {};
  }

  /** The rows of a failed round take its fate: given up when the bridge rejected the message, back to pending if not. */
  function FailureFate(failure: Failure): Fate { if IsMessageRejection(failure) then GiveUp(None) else Return }

  /** The first half of a round: what can be sent is, and an answer comes or none does. */
  method AskBridge(store: Store, context: RoundContext, claimed: seq<Operation>)
    returns (pending: seq<Operation>, tokens: Tokens, result: ReconcileResult, ghost asked: Message, ghost ready: seq<Timed>)
    requires store.Valid() && context.claim.owner == Js
    requires Carried(claimed, store.State(), context.claim) && EditsOnly(claimed)
    requires ReadFromCursor(store.pairing, context.pairingId, context.lastChangelogId)
    modifies store`log, store`nextId, store`animes, store`staged, store`pairing, store`now, store`history,
      store`ours, store`theirs, store`others, store`wire
    ensures store.Valid() && old(store.history) <= ready <= store.history && store.ours == old(store.ours)
    ensures |store.others| <= |old(store.others)|
    ensures Later(old(store.State()), store.State()) && Handed(old(store.log), store.log, context.claim, {}, {})
    ensures |store.others| == |old(store.others)| ==> QueuedIds(store.log) <= old(QueuedIds(store.log))
    ensures |store.others| == |old(store.others)| ==>
      forall operation | operation in pending :: Held(store.log, operation.id, context.claim)
    ensures Carried(pending, store.State(), context.claim) && OnePerAnime(pending) && EditsOnly(pending)
    ensures |pending| <= |claimed| && forall operation | operation in pending :: operation in claimed
    ensures forall operation | operation in claimed && Held(store.log, operation.id, context.claim) :: operation in pending
    ensures ReadFromCursor(store.pairing, context.pairingId, context.lastChangelogId)
    ensures claimed == [] && |store.others| == |old(store.others)| ==> store.State() == old(store.State())
    ensures IsHeard(asked, context, store.origin, ready, store.history) && asked.began == |old(store.history)|
    ensures asked.Exchange? && asked.sent == pending && asked.bases == tokens && asked.answer == result
    ensures asked.answered == Moment(|store.history|, store.State()) && asked.closed == asked.answered
    ensures Was(store.origin, store.history, asked.answered) && Exclusive(store.log, store.now)
    ensures SendsRound(asked, context, claimed) && store.wire == old(store.wire) + [asked.request]
    ensures |store.others| == |old(store.others)| ==> SendsAllItCan(asked, old(store.State()), context.claim, claimed)
  {
    hide Run, Next, Traced, Confirmations, Sound, Carried, Handed, Later, Undisturbed, ReadFromCursor, WellFormedRequest,
      BuildReconcileRequestBody, EditsOnly, QueuedIds, Was, OnlyOthers, InOrderOf, OnlyFetches, IsBase, CanBeSent, RequestCarries,
      Exclusive;
    ghost var start, begun := store.State(), store.history;
    ghost var read, fetched;
    pending, tokens, read, fetched := PrepareRound(store, context.claim, claimed);
    ghost var prepared := store.State();
    ready := store.history;
    RequestIsWellFormed(context.lastChangelogId, pending, tokens);
    var request := BuildReconcileRequestBody(context.lastChangelogId, pending, tokens);
    RequestMeans(context.lastChangelogId, pending, read.db.animes, fetched, tokens);
    result := Reconcile(store, request);
    StateIsRun(store);
    RoundIsReady(start, prepared, store.State(), context.claim, claimed, pending, context.pairingId, context.lastChangelogId);
    asked := Exchange(|begun|, read, fetched, tokens, pending, request, result, Moment(|store.history|, store.State()),
      Moment(|store.history|, store.State()));
  }

  /** The end of a round that came to nothing, or of one row rejected: what it holds is released. */
  method FailRound(store: Store, context: RoundContext, pending: seq<Operation>, failure: Failure, ghost asked: Message,
                   ghost claimed: seq<Operation>, ghost start: Db, ghost ready: seq<Timed>)
    returns (ghost message: Message)
    requires store.Valid() && context.claim.owner == Js
    requires asked.Exchange? && asked.sent == pending && !asked.answer.Accepted? && failure == FailureOf(asked.answer)
    requires IsRejected(asked.answer) ==> |pending| <= 1
    requires IsHeard(asked, context, store.origin, ready, store.history) && SendsRound(asked, context, claimed)
    requires asked.answered == Moment(|store.history|, store.State())
    modifies store`log, store`nextId, store`animes, store`staged, store`pairing, store`now, store`history,
      store`ours, store`theirs, store`others
    ensures store.Valid() && old(store.history) <= store.history && store.ours == old(store.ours)
    ensures |store.others| <= |old(store.others)|
    ensures Round(old(store.State()), store.State(), |store.others| == |old(store.others)|, context.claim, pending, [])
    ensures Tells([message], context.claim, context.pairingId, store.origin, store.history, asked.began, |store.history|)
    ensures RequestsOf([message]) == [asked.request] && SendsRound(message, context, claimed)
    ensures RoundEnds([message], Err(failure), context, Moment(|store.history|, store.State()))
    ensures SendsAllItCan(asked, start, context.claim, claimed) ==> SendsAllItCan(message, start, context.claim, claimed)
  {
    hide Run, Next, Traced, Confirmations, Sound, Handed, Later, Round, WellFormedRequest, IdsOf, QueuedIds, Tells, RequestsOf,
      Was, OnlyOthers, IsHeard, RoundEnds, SendsRound, SendsAllItCan, Exclusive, Closed, IsReleased;
    ghost var heard, before := store.history, store.State();
    var released := ReleaseOperations(store, IdsOf(pending), context.claim, FailureFate(failure));
    RoundFailed(before, store.State(), |store.others| == |old(store.others)|, context.claim, pending);
    ghost var end := Moment(|store.history|, store.State());
    message := Closed(asked, released, end);
    StateIsRun(store);
    ClosedTheSame(asked, released, end, context, claimed, start, store.origin, ready, heard);
    FailureTold(message, context, store.origin, ready, heard, store.history);
  }

  /**
   * Sends one reconcile round for the rows a claim holds and applies its answer. Whatever the bridge answers, none of
   * the round's rows is held afterwards, and nothing else under the claim but the successors of a success. What was sent,
   * what came back and what that did are the messages.
   */
  method SendReconcileRound(store: Store, context: RoundContext, claimed: seq<Operation>)
    returns (outcome: Outcome<RoundOutcome>, ghost settled: set<nat>, ghost messages: seq<Message>)
    requires store.Valid() && context.claim.owner == Js
    requires Carried(claimed, store.State(), context.claim) && EditsOnly(claimed)
    requires ReadFromCursor(store.pairing, context.pairingId, context.lastChangelogId)
    modifies store
    ensures store.Valid() && old(store.history) <= store.history
    ensures store.graded == old(store.graded) && |store.others| <= |old(store.others)|
    ensures Tells(messages, context.claim, context.pairingId, store.origin, store.history, |old(store.history)|, |store.history|)
    ensures store.wire == old(store.wire) + RequestsOf(messages)
    ensures RoundEnds(messages, outcome, context, Moment(|store.history|, store.State()))
    ensures messages != [] && SendsRound(messages[0], context, claimed)
    ensures outcome.Ok? ==> Counted(messages, outcome.value.sentCount, outcome.value.unconfirmedCount)
    ensures |store.others| == |old(store.others)| ==> SendsAllItCan(messages[0], old(store.State()), context.claim, claimed)
    ensures Round(old(store.State()), store.State(), |store.others| == |old(store.others)|, context.claim, claimed,
                  if outcome.Ok? then outcome.value.successors else [])
    ensures outcome.Ok? ==>
      && ReadFromCursor(store.pairing, context.pairingId, outcome.value.nextLastChangelogId)
      && store.ours == old(store.ours) + outcome.value.confirmedCount
      && (|store.others| == |old(store.others)| && outcome.value.unconfirmedCount == 0 ==>
            Cleared(old(store.log), store.log, settled, outcome.value.sentCount))
    ensures outcome.Err? && |claimed| <= 1 ==> store.ours == old(store.ours)
    ensures claimed == [] && outcome.Ok? ==>
      && outcome.value.sentCount == 0 && outcome.value.unconfirmedCount == 0
      && (|store.others| == |old(store.others)| ==> store.log == old(store.log))
    decreases |claimed|, 1
  {
    hide Run, Next, Traced, Confirmations, Sound, Carried, Handed, Later, Round, Cleared, Undisturbed, ReadFromCursor,
      WellFormedRequest, EditsOnly, IdsOf, QueuedIds, Tells, RequestsOf, Was, OnlyOthers, IsHeard, RoundEnds, SendsRound,
      SendsAllItCan, IsAnswerOf, IsOutcomeOf, Exclusive, Closed, IsReleased, EndsSingly,
      Counted;
    ghost var start, wired := store.State(), store.wire;
    var pending, tokens, result, asked, ready := AskBridge(store, context, claimed);
    ghost var answered, heard := store.State(), store.history;
    ghost var quiet := |store.others| == |old(store.others)|;
    if result.Accepted? {
      var round := ApplyAnswer(store, context, pending, result.response, tokens);
      RoundOfPending(start, answered, store.State(), quiet, true, context.claim, claimed, pending, round.successors);
      settled := IdsOf(pending);
      ClearedEarlier(start.log, answered.log, store.log, settled, round.sentCount, quiet);
      ghost var end := Moment(|store.history|, store.State());
      ghost var message := Closed(asked, asked.answered, end);
      StateIsRun(store);
      ClosedTheSame(asked, asked.answered, end, context, claimed, start, store.origin, ready, heard);
      AnswerTold(message, context, store.origin, ready, heard, store.history, round);
      AnswerCounts(message, context, end, round);
      return Ok(round), settled, [message];
    }
    var failure := FailureOf(result);
    if IsMessageRejection(failure) && |pending| > 1 {
      ghost var left := |store.others|;
      ghost var rest;
      outcome, settled, rest := SendOneMessagePerRequest(store, context, pending, failure);
      RoundOfPending(start, answered, store.State(), quiet, |store.others| == left, context.claim,
        claimed, pending, if outcome.Ok? then outcome.value.successors else []);
      ClearedEarlier(start.log, answered.log, store.log, settled, if outcome.Ok? then outcome.value.sentCount else 0, quiet);
      messages := [asked] + rest;
      RejectionTold(asked, rest, context, store.origin, ready, heard, store.history, wired, store.wire, outcome,
        Moment(|store.history|, store.State()));
      if outcome.Ok? {
        RejectedCounts(asked, rest, outcome.value.sentCount, outcome.value.unconfirmedCount);
      }
      return;
    }
    ghost var left := |store.others|;
    var message := FailRound(store, context, pending, failure, asked, claimed, start, ready);
    RoundOfPending(start, answered, store.State(), quiet, |store.others| == left, context.claim, claimed, pending, []);
    return Err(failure), {}, [message];
  }

  /** Before the answer comes, the round's rows are still what was read. */
  lemma RoundIsReady(start: Db, prepared: Db, answered: Db, claim: Claim, claimed: seq<Operation>, pending: seq<Operation>,
                     pairingId: nat, sent: int)
    requires Later(start, prepared) && Handed(start.log, prepared.log, claim, {}, {})
    requires Undisturbed(prepared, answered) && claim.owner == Js
    requires Carried(pending, prepared, claim) && ReadFromCursor(start.pairing, pairingId, sent)
    requires forall operation | operation in claimed && Held(prepared.log, operation.id, claim) :: operation in pending
    ensures Later(start, answered) && Handed(start.log, answered.log, claim, {}, {})
    ensures Carried(pending, answered, claim) && ReadFromCursor(answered.pairing, pairingId, sent)
    ensures forall operation | operation in claimed && Held(answered.log, operation.id, claim) :: operation in pending
  {
    LaterTwice(start, prepared, answered);
    HandedTwice(start.log, prepared.log, answered.log, claim, {}, {}, {}, {});
    CarriedThroughOthers(pending, prepared, answered, claim);
    CursorStaysBehind(start, answered, pairingId, sent);
    assert Handed(prepared.log, answered.log, claim, {}, {});
  }

  lemma ClearedEarlier(a: Table, b: Table, c: Table, settled: set<nat>, count: nat, quiet: bool)
    requires quiet ==> QueuedIds(b) <= QueuedIds(a)
    ensures quiet && Cleared(b, c, settled, count) ==> Cleared(a, c, settled, count)
  {
  }

  lemma RoundFailed(before: Db, after: Db, quiet: bool, claim: Claim, operations: seq<Operation>)
    requires Later(before, after) && Handed(before.log, after.log, claim, IdsOf(operations), {})
    requires quiet ==> QueuedIds(after.log) <= QueuedIds(before.log)
    ensures Round(before, after, quiet, claim, operations, [])
  {
    assert IdsOf([]) == {};
  }

  // ----- Messages sent one by one -----

  /** How far a loop over single messages has come: what it handed on, and how many it sent and left unconfirmed. */
  datatype Progress = Progress(handed: seq<Operation>, sent: nat, unconfirmed: nat)

  /** The first `i` messages were sent or skipped: a round over them, and the rest still carried. */
  ghost predicate Sending(start: Db, db: Db, quiet: bool, claim: Claim, operations: seq<Operation>, i: nat,
                          progress: Progress, settled: set<nat>)
  {
    && i <= |operations|
    && Round(start, db, quiet, claim, operations[..i], progress.handed)
    && Carried(operations[i..], db, claim)
    && (quiet && progress.unconfirmed == 0 ==> Cleared(start.log, db.log, settled, progress.sent))
  }

  lemma SendingStarts(start: Db, claim: Claim, operations: seq<Operation>)
    requires Carried(operations, start, claim) && claim.owner == Js
    ensures Sending(start, start, true, claim, operations, 0, Progress([], 0, 0), {})
  {
    UndisturbedByNothing(start);
    EmptyRound(start, start, true, claim);
    NothingCleared(start.log);
    assert operations[..0] == [] && operations[0..] == operations;
  }

  /** The others acted before the next message: everything stands as it did. */
  lemma SendingWaits(start: Db, before: Db, asked: Db, quiet: bool, still: bool, claim: Claim,
                     operations: seq<Operation>, i: nat, progress: Progress, settled: set<nat>)
    requires i < |operations| && claim.owner == Js
    requires Sending(start, before, quiet, claim, operations, i, progress, settled)
    requires Undisturbed(before, asked) && (still ==> quiet && before == asked)
    ensures Sending(start, asked, still, claim, operations, i, progress, settled)
    ensures Carried([operations[i]], asked, claim) && Later(before, asked)
  {
    RoundWaits(start, before, asked, quiet, still, claim, operations[..i], progress.handed);
    CarriedThroughOthers(operations[i..], before, asked, claim);
    FirstIsCarried(operations[i..], asked, claim);
    assert (quiet && still) == still;
  }

  lemma FirstIsCarried(operations: seq<Operation>, db: Db, claim: Claim)
    requires operations != [] && Carried(operations, db, claim)
    ensures Carried([operations[0]], db, claim) && Carried(operations[1..], db, claim)
  {
  }

  /** A message whose row the claim lost is not sent. */
  lemma SendingSkips(start: Db, db: Db, quiet: bool, claim: Claim, operations: seq<Operation>, i: nat, progress: Progress,
                     settled: set<nat>)
    requires i < |operations| && Sending(start, db, quiet, claim, operations, i, progress, settled)
    requires !Held(db.log, operations[i].id, claim)
    ensures Sending(start, db, quiet, claim, operations, i + 1, progress, settled)
  {
    RoundSkips(start, db, quiet, claim, operations[..i], progress.handed, operations[i]);
    assert operations[..i] + [operations[i]] == operations[..i + 1];
    assert operations[i..][1..] == operations[i + 1..];
    FirstIsCarried(operations[i..], db, claim);
  }

  function AddProgress(a: Progress, b: Progress): Progress {
    Progress(a.handed + b.handed, a.sent + b.sent, a.unconfirmed + b.unconfirmed)
  }

  /** One message was sent: the round grows by it, and the rest is still carried. */
  lemma SendingGoesOn(start: Db, asked: Db, after: Db, still: bool, last: bool, calm: bool, claim: Claim,
                      operations: seq<Operation>, i: nat, progress: Progress, single: Progress,
                      settled: set<nat>, more: set<nat>)
    requires i < |operations| && AnimesDiffer(operations) && calm == (still && last)
    requires Sending(start, asked, still, claim, operations, i, progress, settled)
    requires Round(asked, after, last, claim, [operations[i]], single.handed)
    requires last && single.unconfirmed == 0 ==> Cleared(asked.log, after.log, more, single.sent)
    ensures Sending(start, after, calm, claim, operations, i + 1, AddProgress(progress, single), settled + more)
    ensures Later(asked, after)
  {
    var done, one, rest := operations[..i], [operations[i]], operations[i + 1..];
    assert operations[..i + 1] == done + one && operations[i..][1..] == rest;
    FirstIsCarried(operations[i..], asked, claim);
    forall k | 0 <= k < |done| ensures done[k].row.animeId != operations[i].row.animeId {
      assert done[k] == operations[k];
    }
    forall k | 0 <= k < |rest| ensures rest[k].row.animeId != operations[i].row.animeId {
      assert rest[k] == operations[i + 1 + k];
    }
    RoundThen(start, asked, after, still, last, claim, done, progress.handed, one, single.handed);
    CarriedPast(rest, asked, after, last, claim, one, single.handed);
    if calm && progress.unconfirmed + single.unconfirmed == 0 {
      ClearedTwice(start.log, asked.log, after.log, settled, progress.sent, more, single.sent);
    }
  }

  /** Giving up releases every message not sent and every successor handed on. */
  lemma SendingStops(start: Db, failed: Db, after: Db, calm: bool, last: bool, claim: Claim, operations: seq<Operation>,
                     i: nat, progress: Progress, settled: set<nat>)
    requires Sending(start, failed, calm, claim, operations, i, progress, settled)
    requires Later(failed, after)
    requires Handed(failed.log, after.log, claim, IdsOf(operations[i..]) + IdsOf(progress.handed), {})
    requires last ==> QueuedIds(after.log) <= QueuedIds(failed.log)
    ensures Round(start, after, calm && last, claim, operations, [])
  {
    RoundReleased(start, failed, after, calm, last, claim, operations[..i], progress.handed, operations[i..]);
    assert operations[..i] + operations[i..] == operations;
  }

  lemma SendingEnds(start: Db, db: Db, quiet: bool, claim: Claim, operations: seq<Operation>, progress: Progress,
                    settled: set<nat>)
    requires Sending(start, db, quiet, claim, operations, |operations|, progress, settled)
    ensures Round(start, db, quiet, claim, operations, progress.handed)
    ensures quiet && progress.unconfirmed == 0 ==> Cleared(start.log, db.log, settled, progress.sent)
  {
    assert operations[..|operations|] == operations;
  }

  lemma HeldOne(t: Table, id: nat, claim: Claim)
    ensures id in HeldIds(t, {id}, claim) <==> Held(t, id, claim)
  {
  }

  lemma OneEdit(operations: seq<Operation>, i: nat)
    requires i < |operations| && EditsOnly(operations)
    ensures EditsOnly([operations[i]])
  {
  }

  /** Sends one message of a loop over single ones: what is sent so far grows by it, whatever it comes to. */
  method SendSingle(store: Store, context: RoundContext, cursor: int, operations: seq<Operation>, i: nat, ghost start: Db,
                    ghost still: bool, ghost progress: Progress, ghost settled: set<nat>, ghost messages: seq<Message>,
                    ghost from: nat, ghost wired: seq<Request>, ghost rejection: Failure, ghost last: Failure,
                    ghost delivered: bool)
    returns (single: Outcome<RoundOutcome>, step: Progress, ghost settledNow: set<nat>, ghost said: seq<Message>)
    requires store.Valid() && context.claim.owner == Js && |operations| > 1 && AnimesDiffer(operations)
    requires EditsOnly(operations) && i < |operations| && Carried([operations[i]], store.State(), context.claim)
    requires ReadFromCursor(store.pairing, context.pairingId, cursor)
    requires Sending(start, store.State(), still, context.claim, operations, i, progress, settled)
    requires SaidSingly(messages, operations, context, store.origin, store.history, from, wired, store.wire, rejection, last,
                        delivered)
    requires Counted(messages, progress.sent, progress.unconfirmed)
    modifies store
    ensures store.Valid() && old(store.history) <= store.history
    ensures store.graded == old(store.graded) && |store.others| <= |old(store.others)|
    ensures step == if single.Ok?
                    then Progress(single.value.successors, single.value.sentCount, single.value.unconfirmedCount)
                    else Progress([], 1, 1)
    ensures Sending(start, store.State(), still && |store.others| == |old(store.others)|, context.claim, operations, i + 1,
                    AddProgress(progress, step), settledNow)
    ensures Later(old(store.State()), store.State())
    ensures single.Ok? ==>
      && ReadFromCursor(store.pairing, context.pairingId, single.value.nextLastChangelogId)
      && store.ours == old(store.ours) + single.value.confirmedCount
      && SaidSingly(said, operations, context, store.origin, store.history, from, wired, store.wire, rejection, last, true)
    ensures single.Err? ==> store.ours == old(store.ours)
    ensures single.Err? && IsMessageRejection(single.failure) ==>
      SaidSingly(said, operations, context, store.origin, store.history, from, wired, store.wire, rejection, single.failure,
                 delivered)
    ensures single.Err? && !IsMessageRejection(single.failure) ==>
      EndsSingly(said, operations, context, store.origin, store.history, from, wired, store.wire, rejection, single)
    ensures single.Ok? || IsMessageRejection(single.failure) ==>
      Counted(said, AddProgress(progress, step).sent, AddProgress(progress, step).unconfirmed)
    decreases |operations|, 0, 0
  {
    hide Run, Next, Traced, Confirmations, Sound, Carried, Handed, Later, Round, Cleared, Sending, IdsOf, ReadFromCursor,
      QueuedIds, WellFormedRequest, IsMessageRejection, Tells, RequestsOf, SendsRound, SendsAllItCan, RoundEnds, SaidSingly,
      EndsSingly, EditsOnly, AnimesDiffer, Counted;
    ghost var asked, heard, wire := store.State(), store.history, store.wire;
    OneEdit(operations, i);
    ghost var more, one;
    single, more, one := SendReconcileRound(store, context.(lastChangelogId := cursor), [operations[i]]);
    ghost var end, quiet := Moment(|store.history|, store.State()), |store.others| == |old(store.others)|;
    SinglyGoesOn(messages, one, single, operations, i, context, cursor, store.origin, heard, store.history, from, wired,
      wire, store.wire, rejection, last, delivered, end);
    SingleCounts(messages, one, single, operations, i, context.(lastChangelogId := cursor), end, progress.sent,
      progress.unconfirmed);
    said, settledNow := messages + one, settled + more;
    step := if single.Ok?
      then Progress(single.value.successors, single.value.sentCount, single.value.unconfirmedCount)
      else Progress([], 1, 1);
    SendingGoesOn(start, asked, store.State(), still, quiet, still && quiet, context.claim, operations, i, progress, step,
      settled, more);
  }

  /** Gives up a loop over single messages: what it has not sent, and what it handed on, is released. */
  method ReleaseRest(store: Store, context: RoundContext, ids: set<nat>, ghost messages: seq<Message>,
                     ghost operations: seq<Operation>, ghost from: nat, ghost wired: seq<Request>, ghost rejection: Failure,
                     ghost outcome: Outcome<RoundOutcome>)
    returns (ghost said: seq<Message>)
    requires store.Valid() && context.claim.owner == Js && outcome.Err?
    requires EndsSingly(messages, operations, context, store.origin, store.history, from, wired, store.wire, rejection, outcome)
    modifies store`log, store`nextId, store`animes, store`staged, store`pairing, store`now, store`history,
      store`ours, store`theirs, store`others
    ensures store.Valid() && old(store.history) <= store.history && store.ours == old(store.ours)
    ensures |store.others| <= |old(store.others)|
    ensures Later(old(store.State()), store.State()) && Handed(old(store.log), store.log, context.claim, ids, {})
    ensures |store.others| == |old(store.others)| ==> QueuedIds(store.log) <= old(QueuedIds(store.log))
    ensures EndsSingly(said, operations, context, store.origin, store.history, from, wired, store.wire, rejection,
                       Err(outcome.failure))
  {
    hide Run, Next, Traced, Confirmations, Sound, Handed, Later, EndsSingly, OnlyOthers, Was, IsReleased, QueuedIds,
      WellFormedRequest;
    ghost var failed := store.history;
    var released := ReleaseOperations(store, ids, context.claim, Return);
    StateIsRun(store);
    ghost var last := Release(|failed|, ids, released, Moment(|store.history|, store.State()));
    SinglyStops(messages, last, operations, context, store.origin, failed, store.history, from, wired, store.wire, rejection,
      outcome, outcome.failure);
    said := messages + [last];
  }

  /**
   * Re-sends a rejected round one message per request, so a 4xx lands on the one message that caused it. Any other
   * failure releases what is left, successors included; when no message got through, the last rejection is the outcome.
   */
  method SendOneMessagePerRequest(store: Store, context: RoundContext, operations: seq<Operation>, rejection: Failure)
    returns (outcome: Outcome<RoundOutcome>, ghost settled: set<nat>, ghost messages: seq<Message>)
    requires store.Valid() && context.claim.owner == Js && |operations| > 1 && AnimesDiffer(operations)
    requires Carried(operations, store.State(), context.claim) && EditsOnly(operations)
    requires ReadFromCursor(store.pairing, context.pairingId, context.lastChangelogId)
    requires IsMessageRejection(rejection)
    modifies store
    ensures store.Valid() && old(store.history) <= store.history
    ensures store.graded == old(store.graded) && |store.others| <= |old(store.others)|
    ensures EndsSingly(messages, operations, context, store.origin, store.history, |old(store.history)|, old(store.wire),
                       store.wire, rejection, outcome)
    ensures outcome.Ok? ==> Counted(messages, outcome.value.sentCount, outcome.value.unconfirmedCount)
    ensures Round(old(store.State()), store.State(), |store.others| == |old(store.others)|, context.claim, operations,
                  if outcome.Ok? then outcome.value.successors else [])
    ensures outcome.Ok? ==>
      && ReadFromCursor(store.pairing, context.pairingId, outcome.value.nextLastChangelogId)
      && store.ours == old(store.ours) + outcome.value.confirmedCount
      && (|store.others| == |old(store.others)| && outcome.value.unconfirmedCount == 0 ==>
            Cleared(old(store.log), store.log, settled, outcome.value.sentCount))
    decreases |operations|, 0, 1
  {
    hide Run, Next, Traced, Confirmations, Sound, Carried, Handed, Later, Round, Cleared, Undisturbed, Sending, IdsOf,
      ReadFromCursor, QueuedIds, WellFormedRequest, Held, IsMessageRejection, Tells, RequestsOf, OnlyOthers, Was, IsReleased,
      SendsRound, SendsAllItCan, RoundEnds, SaidSingly, EndsSingly, EditsOnly, AnimesDiffer, HeldIds,
      Counted;
    ghost var start, begun, wired := store.State(), |store.history|, store.wire;
    messages := [];
    SinglyStarts(operations, context, store.origin, store.history, store.wire, rejection);
    NothingCounted();
    var claim := context.claim;
    var progress, cursor := Progress([], 0, 0), context.lastChangelogId;
    var confirmedCount: nat := 0;
    settled := {};
    var lastRejection, delivered := rejection, false;
    SendingStarts(start, claim, operations);
    for i := 0 to |operations|
      invariant store.Valid() && old(store.history) <= store.history
      invariant store.graded == old(store.graded) && |store.others| <= |old(store.others)|
      invariant Sending(start, store.State(), |store.others| == |old(store.others)|, claim, operations, i, progress, settled)
      invariant ReadFromCursor(store.pairing, context.pairingId, cursor)
      invariant store.ours == old(store.ours) + confirmedCount
      invariant !delivered ==> progress.handed == []
      invariant SaidSingly(messages, operations, context, store.origin, store.history, begun, wired, store.wire, rejection,
                           lastRejection, delivered)
      invariant Counted(messages, progress.sent, progress.unconfirmed)
    {
      ghost var before, quiet, told := store.State(), |store.others| == |old(store.others)|, store.history;
      store.Interfere();
      SinglyWaits(messages, operations, context, store.origin, told, store.history, begun, wired, store.wire, rejection,
        lastRejection, delivered);
      ghost var asked, still := store.State(), |store.others| == |old(store.others)|;
      SendingWaits(start, before, asked, quiet, still, claim, operations, i, progress, settled);
      CursorStaysBehind(before, asked, context.pairingId, cursor);
      HeldOne(store.log, operations[i].id, claim);
      if operations[i].id !in HeldIds(store.log, {operations[i].id}, claim) {
        SendingSkips(start, asked, still, claim, operations, i, progress, settled);
        continue;
      }
      var single, step;
      single, step, settled, messages := SendSingle(store, context, cursor, operations, i, start, still, progress, settled,
        messages, begun, wired, rejection, lastRejection, delivered);
      ghost var answered, calm, rest := store.State(), |store.others| == |old(store.others)|, |store.others|;
      progress := AddProgress(progress, step);
      if single.Ok? {
        confirmedCount, cursor := confirmedCount + single.value.confirmedCount, single.value.nextLastChangelogId;
        delivered := true;
      } else if IsMessageRejection(single.failure) {
        CursorStaysBehind(asked, answered, context.pairingId, cursor);
        lastRejection := single.failure;
      } else {
        messages := ReleaseRest(store, context, IdsOf(operations[i + 1..]) + IdsOf(progress.handed), messages, operations, begun,
          wired, rejection, single);
        SendingStops(start, answered, store.State(), calm, |store.others| == rest, claim, operations, i + 1, progress, settled);
        return Err(single.failure), {}, messages;
      }
    }
    SendingEnds(start, store.State(), |store.others| == |old(store.others)|, claim, operations, progress, settled);
    outcome := if delivered
      then Ok(RoundOutcome(progress.sent, confirmedCount, progress.unconfirmed, cursor, progress.handed))
      else Err(lastRejection);
    SinglyEnds(messages, operations, context, store.origin, store.history, begun, wired, store.wire, rejection, lastRejection,
      delivered, outcome);
  }

  // ----- Season ratings -----

  const REASON_AUTH_REPAIR := "auth_repair"
  const REASON_NOT_FOUND := "not_found"
  const REASON_RATING_CONFLICT := "conflict"
  const REASON_REJECTED := "rejected"

  /** Only a 204 is a delivery, a 4xx gives the rating up with its reason, anything else is retried. */
  function ClassifySeasonRatingAnswer(status: Option<int>): (fate: Fate)
    ensures fate.Confirm? <==> status == Some(204)
    ensures fate.GiveUp? <==> status.Some? && 400 <= status.value <= 499
    ensures !fate.Conflict?
  {
    if status == Some(204) then Confirm
    else if status.None? || status.value < 400 || status.value > 499 then Return
    else
      GiveUp(Some(
        if status.value == 401 then REASON_AUTH_REPAIR
        else if status.value == 404 then REASON_NOT_FOUND
        else if status.value == 409 then REASON_RATING_CONFLICT
        else REASON_REJECTED))
  }

  function FieldOf(payload: Payload, field: string): Option<Json> {
    if field in payload then Some(payload[field]) else None
  }

  /** The body of a rating: its anime and what its payload carries, never a guess. */
  function BuildSeasonRatingRequest(row: Row): (body: RatingBody)
    ensures BodyCarries(body, row)
  {
    RatingBody(row.animeId, FieldOf(row.payload, "grade"), FieldOf(row.payload, "ratedAt"), FieldOf(row.payload, "seasonId"))
  }

  /** Posts one rating; the others act while it is on the wire. */
  method PostSeasonRating(store: Store, rating: Operation) returns (fate: Fate, ghost body: RatingBody, ghost status: Option<int>)
    requires store.Valid()
    modifies store`log, store`nextId, store`animes, store`staged, store`pairing, store`now, store`history,
      store`theirs, store`others, store`graded
    ensures store.Valid() && old(store.history) <= store.history && Undisturbed(old(store.State()), store.State())
    ensures |store.others| <= |old(store.others)|
    ensures OnlyOthers(store.history, |old(store.history)|, |store.history|)
    ensures |store.others| == |old(store.others)| ==> store.State() == old(store.State())
    ensures fate == ClassifySeasonRatingAnswer(status) && BodyCarries(body, rating.row)
    ensures store.graded == old(store.graded) + if status == Some(204) then 1 else 0
  {
    hide Run, Next, Traced, Confirmations, Sound, Undisturbed;
    var request := BuildSeasonRatingRequest(rating.row);
    var answer: Option<int> := *;
    fate, body, status := ClassifySeasonRatingAnswer(answer), request, answer;
    if answer == Some(204) {
      store.graded := store.graded + 1;
    }
    store.Interfere();
  }

  datatype RatingsOutcome = RatingsOutcome(
    confirmedCount: nat,
    pendingCount: nat,
    attemptedCount: nat,
    ratingDelivered: bool,
    successors: seq<Operation>)

  ghost predicate RatingsOnly(operations: seq<Operation>) {
    forall i | 0 <= i < |operations| :: operations[i].row.operation == SEASON_RATING_OPERATION
  }

  /** Sends one rating and settles its answer. */
  method SendSeasonRating(store: Store, claim: Claim, rating: Operation, ghost pairingId: nat)
    returns (fate: Fate, confirmed: bool, successors: seq<Operation>, ghost message: Message)
    requires store.Valid() && claim.owner == Js && Carried([rating], store.State(), claim)
    requires rating.row.operation == SEASON_RATING_OPERATION && Held(store.log, rating.id, claim)
    modifies store
    ensures store.Valid() && old(store.history) <= store.history && |store.others| <= |old(store.others)|
    ensures Round(old(store.State()), store.State(), |store.others| == |old(store.others)|, claim, [rating], successors)
    ensures store.ours == old(store.ours) + if confirmed then 1 else 0
    ensures store.graded == old(store.graded) + if fate.Confirm? then 1 else 0
    ensures |store.others| == |old(store.others)| && fate != Return ==>
      Cleared(old(store.log), store.log, {rating.id}, 1)
    ensures message.Post? && message.rating == rating && fate == ClassifySeasonRatingAnswer(message.status)
    ensures Tells([message], claim, pairingId, store.origin, store.history, |old(store.history)|, |store.history|)
    ensures store.wire == old(store.wire)
  {
    hide Run, Next, Traced, Confirmations, WellFormed, Exclusive, Carried, Handed, Later, Round, Cleared, Undisturbed,
      SettleRound, ChainRows, Tells, Was, OnlyOthers, ClassifySeasonRatingAnswer, Sending, BodyCarries;
    ghost var start, begun := store.State(), store.history;
    ghost var body, status;
    fate, body, status := PostSeasonRating(store, rating);
    ghost var heard := store.history;
    StateIsRun(store);
    ghost var answered, quiet := store.State(), |store.others| == |old(store.others)|;
    RatingWaits(start, answered, rating, claim);
    confirmed, successors := store.SettleSeasonRating(rating, fate, claim);
    ghost var after := store.State();
    StateIsRun(store);
    message := Post(|begun|, rating, body, status, Moment(|heard|, answered), Moment(|store.history|, after));
    PostTold(message, fate, claim, pairingId, store.origin, heard, store.history);
    if Held(answered.log, rating.id, claim) {
      RatingLeaves(answered, after, rating, fate, claim, successors);
    } else {
      LostRatingLeaves(answered, rating, claim);
    }
    RoundAfterWait(start, answered, after, quiet, claim, [rating], successors);
  }

  lemma RatingWaits(before: Db, after: Db, rating: Operation, claim: Claim)
    requires Undisturbed(before, after) && claim.owner == Js && Carried([rating], before, claim)
    ensures Carried([rating], after, claim)
  {
    CarriedThroughOthers([rating], before, after, claim);
  }

  /** What others do before a round belongs to it. */
  lemma RoundAfterWait(a: Db, b: Db, c: Db, quiet: bool, claim: Claim, operations: seq<Operation>, successors: seq<Operation>)
    requires Undisturbed(a, b) && claim.owner == Js && (quiet ==> a == b)
    requires Round(b, c, true, claim, operations, successors)
    ensures Round(a, c, quiet, claim, operations, successors)
  {
    EmptyRound(a, b, quiet, claim);
    RoundThen(a, b, c, quiet, true, claim, [], [], operations, successors);
    assert [] + operations == operations && [] + successors == successors;
  }

  /** A fate takes a rating where its status says. */
  lemma PostMeans(row: Row, status: Option<int>)
    ensures EndsAsPosted(row, ApplyFate(row, ClassifySeasonRatingAnswer(status)), status)
  {
  }

  lemma PostCounts(messages: seq<Message>, message: Message, fate: Fate, sent: nat, left: nat)
    requires message.Post? && fate == ClassifySeasonRatingAnswer(message.status) && Counted(messages, sent, left)
    ensures Counted(messages + [message], sent + 1, left + if fate == Return then 1 else 0)
    ensures fate.Confirm? <==> message.status == Some(204)
  {
    hide Counted;
    CountedOne(message);
    CountsJoin(messages, [message], sent, left, 1, if fate == Return then 1 else 0);
  }

  lemma RatingsGoOn(messages: seq<Message>, message: Message, fate: Fate, ratings: seq<Operation>, i: nat, claim: Claim,
                    pairingId: nat, origin: Db, history: seq<Timed>, longer: seq<Timed>, from: nat, sent: nat, left: nat,
                    delivered: bool)
    requires SaidRatings(messages, ratings, i, claim, pairingId, origin, history, from, sent, left, delivered)
    requires i < |ratings| && message.Post? && message.rating == ratings[i]
    requires fate == ClassifySeasonRatingAnswer(message.status)
    requires history <= longer && Tells([message], claim, pairingId, origin, longer, |history|, |longer|)
    ensures SaidRatings(messages + [message], ratings, i + 1, claim, pairingId, origin, longer, from, sent + 1,
                        left + if fate == Return then 1 else 0, delivered || fate.Confirm?)
  {
    hide Tells, RequestsOf, Delivers, AllPosts, Counted, InOrderOf, PostedIn;
    TellsTwice(messages, [message], claim, pairingId, origin, history, longer, from, |history|, |longer|);
    OneMorePost(messages, message, ratings);
    PostedOneMore(messages, message, ratings, i);
    PostCounts(messages, message, fate, sent, left);
  }

  lemma PostTold(message: Message, fate: Fate, claim: Claim, pairingId: nat, origin: Db, heard: seq<Timed>, history: seq<Timed>)
    requires message.Post? && fate == ClassifySeasonRatingAnswer(message.status) && heard <= history
    requires BodyCarries(message.body, message.rating.row)
    requires message.answered.at == |heard| && message.closed.at == |history| <= |heard| + 1
    requires Was(origin, heard, message.answered) && Was(origin, history, message.closed)
    requires OnlyOthers(heard, message.began, |heard|)
    requires Carried([message.rating], message.answered.db, claim)
    requires var before, after := message.answered.db, message.closed.db;
      if Held(before.log, message.rating.id, claim)
      then after == before.(log := SettleRound(before.log, map[message.rating.id := fate], claim, after.now), now := after.now)
      else after == before
    ensures Tells([message], claim, pairingId, origin, history, message.began, |history|)
  {
    hide Run, Was, Carried, SettleRound, ClassifySeasonRatingAnswer;
    WasLonger(origin, heard, history, message.answered);
    OthersStay(heard, history, message.began, |heard|);
    if Held(message.answered.db.log, message.rating.id, claim) {
      forall row: Row ensures EndsAsPosted(row, ApplyFate(row, fate), message.status) {
        PostMeans(row, message.status);
      }
      RatingMeans(message.answered.db, message.closed.db, message.rating, message.status, fate, claim);
    }
    hide OthersFollow, EndsAsPosted, BodyCarries;
    TellsOne(message, claim, pairingId, origin, history, |history|);
  }

  /**
   * Sends the ratings of a round one by one. No answer fails the attempt; afterwards none of the round's ratings is
   * held, and nothing else under the claim but the next rows of the animes whose rating was delivered.
   */
  method SendSeasonRatingRound(store: Store, claim: Claim, ratings: seq<Operation>, ghost pairingId: nat)
    returns (outcome: RatingsOutcome, ghost settled: set<nat>, ghost messages: seq<Message>)
    requires store.Valid() && claim.owner == Js
    requires Carried(ratings, store.State(), claim) && AnimesDiffer(ratings) && RatingsOnly(ratings)
    modifies store
    ensures store.Valid() && old(store.history) <= store.history && |store.others| <= |old(store.others)|
    ensures Round(old(store.State()), store.State(), |store.others| == |old(store.others)|, claim, ratings, outcome.successors)
    ensures store.ours == old(store.ours) + outcome.confirmedCount
    ensures old(store.graded) <= store.graded && (outcome.ratingDelivered <==> old(store.graded) < store.graded)
    ensures |store.others| == |old(store.others)| && outcome.pendingCount == 0 ==>
      Cleared(old(store.log), store.log, settled, outcome.attemptedCount)
    ensures ratings == [] ==>
      && outcome.attemptedCount == 0 && outcome.pendingCount == 0
      && store.log == old(store.log) && |store.others| == |old(store.others)|
    ensures store.wire == old(store.wire)
    ensures SaidRatings(messages, ratings, |ratings|, claim, pairingId, store.origin, store.history, |old(store.history)|,
                        outcome.attemptedCount, outcome.pendingCount, outcome.ratingDelivered)
  {
    hide Run, Next, Traced, Confirmations, Sound, Carried, Handed, Later, Round, Cleared, Undisturbed, Sending, Tells, OnlyOthers,
      SaidRatings, AnimesDiffer, HeldIds, WellFormedRequest, ClassifySeasonRatingAnswer;
    ghost var start, begun := store.State(), store.history;
    messages := [];
    NothingPosted(claim, pairingId, store.origin, store.history, ratings);
    var progress := Progress([], 0, 0);
    var confirmedCount: nat, ratingDelivered := 0, false;
    settled := {};
    SendingStarts(start, claim, ratings);
    for i := 0 to |ratings|
      invariant store.Valid() && old(store.history) <= store.history && |store.others| <= |old(store.others)|
      invariant Sending(start, store.State(), |store.others| == |old(store.others)|, claim, ratings, i, progress, settled)
      invariant store.ours == old(store.ours) + confirmedCount
      invariant old(store.graded) <= store.graded && (ratingDelivered <==> old(store.graded) < store.graded)
      invariant i == 0 ==>
        store.log == old(store.log) && |store.others| == |old(store.others)| && progress == Progress([], 0, 0)
      invariant store.wire == old(store.wire)
      invariant SaidRatings(messages, ratings, i, claim, pairingId, store.origin, store.history, |begun|, progress.sent,
                            progress.unconfirmed, ratingDelivered)
    {
      ghost var before, quiet, told := store.State(), |store.others| == |old(store.others)|, store.history;
      store.Interfere();
      RatingsWait(messages, ratings, i, claim, pairingId, store.origin, told, store.history, |begun|, progress.sent,
        progress.unconfirmed, ratingDelivered);
      ghost var heard := store.history;
      ghost var asked, left := store.State(), |store.others|;
      ghost var still := left == |old(store.others)|;
      SendingWaits(start, before, asked, quiet, still, claim, ratings, i, progress, settled);
      HeldOne(store.log, ratings[i].id, claim);
      if ratings[i].id !in HeldIds(store.log, {ratings[i].id}, claim) {
        SendingSkips(start, asked, still, claim, ratings, i, progress, settled);
        RatingsSkip(messages, ratings, i, claim, pairingId, store.origin, heard, |begun|, progress.sent, progress.unconfirmed,
          ratingDelivered);
        continue;
      }
      var fate, confirmed, successors, message := SendSeasonRating(store, claim, ratings[i], pairingId);
      RatingsGoOn(messages, message, fate, ratings, i, claim, pairingId, store.origin, heard, store.history, |begun|,
        progress.sent, progress.unconfirmed, ratingDelivered);
      messages := messages + [message];
      ghost var calm := |store.others| == |old(store.others)|;
      var step := Progress(successors, 1, if fate == Return then 1 else 0);
      SendingGoesOn(start, asked, store.State(), still, |store.others| == left, calm, claim, ratings, i, progress, step,
        settled, {ratings[i].id});
      progress, settled := AddProgress(progress, step), settled + {ratings[i].id};
      confirmedCount := confirmedCount + if confirmed then 1 else 0;
      ratingDelivered := ratingDelivered || fate.Confirm?;
    }
    SendingEnds(start, store.State(), |store.others| == |old(store.others)|, claim, ratings, progress, settled);
    outcome := RatingsOutcome(confirmedCount, progress.unconfirmed, progress.sent, ratingDelivered, progress.handed);
  }

  // ----- The split round -----

  /** The ratings of a round, or its other rows, in order. */
  function OfKind(operations: seq<Operation>, ratings: bool): seq<Operation> {
    if operations == [] then []
    else
      var last := operations[|operations| - 1];
      var before := OfKind(operations[..|operations| - 1], ratings);
      if (last.row.operation == SEASON_RATING_OPERATION) == ratings then before + [last] else before
  }

  lemma {:induction false} OfKindAre(operations: seq<Operation>, ratings: bool)
    ensures forall operation ::
      operation in OfKind(operations, ratings)
      <==> operation in operations && (operation.row.operation == SEASON_RATING_OPERATION) == ratings
    ensures AnimesDiffer(operations) ==> AnimesDiffer(OfKind(operations, ratings))
  {
    if operations != [] {
      var before, last := operations[..|operations| - 1], operations[|operations| - 1];
      OfKindAre(before, ratings);
      assert operations == before + [last];
      var kept := OfKind(before, ratings);
      forall i | 0 <= i < |kept| ensures AnimesDiffer(operations) ==> kept[i].row.animeId != last.row.animeId {
        assert kept[i] in before;
        var k :| 0 <= k < |before| && before[k] == kept[i];
        assert operations[k] == before[k] && operations[|before|] == last;
      }
    }
  }

  lemma {:induction false} OfKindInOrder(operations: seq<Operation>, ratings: bool)
    ensures InOrderOf(OfKind(operations, ratings), operations)
  {
    if operations != [] {
      var before, last := operations[..|operations| - 1], operations[|operations| - 1];
      OfKindInOrder(before, ratings);
      OneMoreInOrder(OfKind(before, ratings), before, last);
      assert operations == before + [last];
      hide InOrderOf;
    }
  }

  lemma NothingOfAKind(operations: seq<Operation>)
    ensures operations == [] ==> OfKind(operations, true) == [] && OfKind(operations, false) == []
  {
  }

  /** A round splits into its edits and its ratings, of different animes. */
  lemma SplitIsCarried(round: seq<Operation>, db: Db, claim: Claim)
    requires Carried(round, db, claim)
    ensures var edits, ratings := OfKind(round, false), OfKind(round, true);
      && Carried(edits, db, claim) && EditsOnly(edits) && Carried(ratings, db, claim) && RatingsOnly(ratings)
      && AnimesDiffer(ratings)
      && AnimeIdsOf(edits) !! AnimeIdsOf(ratings)
      && IdsOf(edits + ratings) == IdsOf(round) && AnimeIdsOf(edits + ratings) == AnimeIdsOf(round)
  {
    var edits, ratings := OfKind(round, false), OfKind(round, true);
    OfKindAre(round, false);
    OfKindAre(round, true);
    forall i | 0 <= i < |edits| ensures edits[i] in round && edits[i].row.operation != SEASON_RATING_OPERATION {
      assert edits[i] in edits;
    }
    forall i | 0 <= i < |ratings| ensures ratings[i] in round && ratings[i].row.operation == SEASON_RATING_OPERATION {
      assert ratings[i] in ratings;
    }
    SameMembers(edits + ratings, round);
  }

  lemma SameMembers(a: seq<Operation>, b: seq<Operation>)
    requires forall operation :: operation in a <==> operation in b
    ensures IdsOf(a) == IdsOf(b) && AnimeIdsOf(a) == AnimeIdsOf(b)
  {
    forall i | 0 <= i < |a| ensures a[i].id in IdsOf(b) && a[i].row.animeId in AnimeIdsOf(b) {
      assert a[i] in b;
    }
    forall i | 0 <= i < |b| ensures b[i].id in IdsOf(a) && b[i].row.animeId in AnimeIdsOf(a) {
      assert b[i] in a;
    }
  }

  datatype SplitOutcome = SplitOutcome(round: RoundOutcome, ratingDelivered: bool)

  lemma EditsAreSent(messages: seq<Message>, context: RoundContext, round: seq<Operation>, start: Db)
    requires messages != [] && SendsRound(messages[0], context, OfKind(round, false))
    ensures StartsWithEdits(messages, context, round)
    ensures SendsAllItCan(messages[0], start, context.claim, OfKind(round, false)) ==>
      StartsWithAllItCan(messages, start, context.claim, round)
  {
    OfKindAre(round, false);
    OfKindInOrder(round, false);
    InOrderTwice(messages[0].sent, OfKind(round, false), round);
    hide OfKind, InOrderOf, CanBeSent, Held;
  }

  /** The reconcile of a split round: always in the first round of a chain, later only for edits. */
  method SendEdits(store: Store, context: RoundContext, round: seq<Operation>, firstRound: bool)
    returns (sent: Outcome<RoundOutcome>, ghost settled: set<nat>, ghost messages: seq<Message>)
    requires store.Valid() && context.claim.owner == Js
    requires Carried(OfKind(round, false), store.State(), context.claim) && EditsOnly(OfKind(round, false))
    requires ReadFromCursor(store.pairing, context.pairingId, context.lastChangelogId)
    modifies store
    ensures store.Valid() && old(store.history) <= store.history
    ensures store.graded == old(store.graded) && |store.others| <= |old(store.others)|
    ensures Round(old(store.State()), store.State(), |store.others| == |old(store.others)|, context.claim, OfKind(round, false),
                  if sent.Ok? then sent.value.successors else [])
    ensures sent.Ok? ==>
      && ReadFromCursor(store.pairing, context.pairingId, sent.value.nextLastChangelogId)
      && store.ours == old(store.ours) + sent.value.confirmedCount
      && (|store.others| == |old(store.others)| && sent.value.unconfirmedCount == 0 ==>
            Cleared(old(store.log), store.log, settled, sent.value.sentCount))
    ensures OfKind(round, false) == [] && sent.Ok? ==>
      && sent.value.sentCount == 0 && sent.value.unconfirmedCount == 0
      && (|store.others| == |old(store.others)| ==> store.log == old(store.log))
    ensures Tells(messages, context.claim, context.pairingId, store.origin, store.history, |old(store.history)|, |store.history|)
    ensures store.wire == old(store.wire) + RequestsOf(messages)
    ensures if sent.Ok? then AllGetThrough(messages) else FailsWith(messages, sent.failure)
    ensures sent.Ok? ==> Counted(messages, sent.value.sentCount, sent.value.unconfirmedCount)
    ensures firstRound ==>
      && StartsWithEdits(messages, context, round) && (sent.Ok? ==> Succeeds(messages))
      && (|store.others| == |old(store.others)| ==> StartsWithAllItCan(messages, old(store.State()), context.claim, round))
  {
    hide Run, Next, Traced, Confirmations, Sound, Carried, Handed, Later, Round, Cleared, OfKind, ReadFromCursor, IdsOf,
      Tells, RequestsOf, SendsRound, SendsAllItCan, Succeeds, AllGetThrough, FailsWith, StartsWithEdits, Delivers,
      StartsWithAllItCan, EditsOnly, AnimesDiffer, AnimeIdsOf, QueuedIds, WellFormedRequest, Counted, RoundEnds;
    ghost var start := store.State();
    var edits := OfKind(round, false);
    if firstRound || edits != [] {
      sent, settled, messages := SendReconcileRound(store, context, edits);
      RoundComesTo(messages, sent, context, Moment(|store.history|, store.State()));
      EditsAreSent(messages, context, round, start);
      return;
    }
    NothingSent(start, context.claim);
    SaidNothing(context, store.origin, store.history);
    NothingCounted();
    return Ok(RoundOutcome(0, 0, 0, context.lastChangelogId, [])), {}, [];
  }

  /** Sends one round of a chain: its edits in one reconcile, then its ratings one per request. */
  method SendSplitRound(store: Store, context: RoundContext, round: seq<Operation>, firstRound: bool, claimed: set<nat>)
    returns (outcome: Outcome<SplitOutcome>, claimedIds: set<nat>, ghost settled: set<nat>, ghost messages: seq<Message>)
    requires store.Valid() && context.claim.owner == Js && Carried(round, store.State(), context.claim)
    requires ReadFromCursor(store.pairing, context.pairingId, context.lastChangelogId)
    modifies store
    ensures store.Valid() && old(store.history) <= store.history && |store.others| <= |old(store.others)|
    ensures Later(old(store.State()), store.State()) && claimed <= claimedIds
    ensures outcome.Err? ==> Handed(old(store.log), store.log, context.claim, {}, {})
    ensures outcome.Ok? ==>
      && Round(old(store.State()), store.State(), |store.others| == |old(store.others)|, context.claim, round,
               outcome.value.round.successors)
      && IdsOf(outcome.value.round.successors) <= claimedIds
      && ReadFromCursor(store.pairing, context.pairingId, outcome.value.round.nextLastChangelogId)
      && store.ours == old(store.ours) + outcome.value.round.confirmedCount
      && old(store.graded) <= store.graded && (outcome.value.ratingDelivered <==> old(store.graded) < store.graded)
      && (|store.others| == |old(store.others)| && outcome.value.round.unconfirmedCount == 0 ==>
            Cleared(old(store.log), store.log, settled, outcome.value.round.sentCount))
    ensures round == [] && outcome.Ok? ==>
      && outcome.value.round.sentCount == 0 && outcome.value.round.unconfirmedCount == 0
      && (|store.others| == |old(store.others)| ==> store.log == old(store.log))
    ensures Tells(messages, context.claim, context.pairingId, store.origin, store.history, |old(store.history)|, |store.history|)
    ensures store.wire == old(store.wire) + RequestsOf(messages)
    ensures if outcome.Ok? then AllGetThrough(messages) else FailsWith(messages, outcome.failure)
    ensures outcome.Ok? ==> Counted(messages, outcome.value.round.sentCount, outcome.value.round.unconfirmedCount)
    ensures outcome.Ok? && outcome.value.ratingDelivered ==> Delivers(messages)
    ensures firstRound ==>
      && StartsWithEdits(messages, context, round) && (outcome.Ok? ==> Succeeds(messages))
      && (|store.others| == |old(store.others)| ==> StartsWithAllItCan(messages, old(store.State()), context.claim, round))
  {
    hide Run, Next, Traced, Confirmations, Sound, Carried, Handed, Later, Round, Cleared, OfKind, ReadFromCursor, IdsOf,
      Tells, RequestsOf, SendsRound, SendsAllItCan, Succeeds, AllGetThrough, FailsWith, StartsWithEdits,
      StartsWithAllItCan, Delivers, AllPosts, EditsOnly, RatingsOnly, AnimesDiffer, AnimeIdsOf, QueuedIds, WellFormedRequest,
      Counted, RoundEnds, SaidRatings;
    ghost var start, begun := store.State(), store.history;
    var ratings := OfKind(round, true);
    SplitIsCarried(round, start, context.claim);
    NothingOfAKind(round);
    claimedIds := claimed;
    var sent, cleared, asked := SendEdits(store, context, round, firstRound);
    if sent.Err? {
      RoundHandsBack(start, store.State(), |store.others| == |old(store.others)|, context.claim, OfKind(round, false));
      return Err(sent.failure), claimedIds, {}, asked;
    }
    var applied := sent.value;
    ghost var between, left, quiet := store.State(), |store.others|, |store.others| == |old(store.others)|;
    claimedIds := claimedIds + IdsOf(applied.successors);
    CarriedPast(ratings, start, between, quiet, context.claim, OfKind(round, false), applied.successors);
    ghost var heard := store.history;
    var rated, more, posts := SendSeasonRatingRound(store, context.claim, ratings, context.pairingId);
    RatingsAreSaid(posts, ratings, context.claim, context.pairingId, store.origin, store.history, |heard|, rated.attemptedCount,
      rated.pendingCount, rated.ratingDelivered);
    TellsTwice(asked, posts, context.claim, context.pairingId, store.origin, heard, store.history, |begun|, |heard|, |store.history|);
    RequestsTwice(asked, posts);
    PostsAfter(asked, posts, ratings);
    CountsJoin(asked, posts, applied.sentCount, applied.unconfirmedCount, rated.attemptedCount, rated.pendingCount);
    messages := asked + posts;
    StartsLonger(asked, posts, context, round, start);
    claimedIds := claimedIds + IdsOf(rated.successors);
    SplitSent(start, between, store.State(), quiet, |store.others| == left, context, round, applied, rated, cleared, more);
    settled := cleared + more;
    outcome := Ok(SplitOutcome(
      RoundOutcome(applied.sentCount + rated.attemptedCount, applied.confirmedCount + rated.confirmedCount,
        applied.unconfirmedCount + rated.pendingCount, applied.nextLastChangelogId,
        applied.successors + rated.successors),
      rated.ratingDelivered));
    IdsJoin(applied.successors, rated.successors);
  }

  lemma RoundHandsBack(before: Db, after: Db, quiet: bool, claim: Claim, operations: seq<Operation>)
    requires Round(before, after, quiet, claim, operations, [])
    ensures Later(before, after) && Handed(before.log, after.log, claim, {}, {})
  {
    assert IdsOf([]) == {};
  }

  lemma NothingSent(db: Db, claim: Claim)
    requires claim.owner == Js
    ensures Round(db, db, true, claim, [], []) && Cleared(db.log, db.log, {}, 0)
  {
    UndisturbedByNothing(db);
    EmptyRound(db, db, true, claim);
    NothingCleared(db.log);
  }

  /** Both halves of a split round, put together. */
  lemma SplitSent(start: Db, between: Db, after: Db, quiet: bool, still: bool, context: RoundContext, round: seq<Operation>,
                  applied: RoundOutcome, rated: RatingsOutcome, cleared: set<nat>, more: set<nat>)
    requires Carried(round, start, context.claim)
    requires Round(start, between, quiet, context.claim, OfKind(round, false), applied.successors)
    requires Round(between, after, still, context.claim, OfKind(round, true), rated.successors)
    requires ReadFromCursor(between.pairing, context.pairingId, applied.nextLastChangelogId)
    requires quiet && applied.unconfirmedCount == 0 ==> Cleared(start.log, between.log, cleared, applied.sentCount)
    requires still && rated.pendingCount == 0 ==> Cleared(between.log, after.log, more, rated.attemptedCount)
    ensures Round(start, after, quiet && still, context.claim, round, applied.successors + rated.successors)
    ensures Later(start, after) && ReadFromCursor(after.pairing, context.pairingId, applied.nextLastChangelogId)
    ensures quiet && still && applied.unconfirmedCount + rated.pendingCount == 0 ==>
      Cleared(start.log, after.log, cleared + more, applied.sentCount + rated.attemptedCount)
  {
    var edits, ratings := OfKind(round, false), OfKind(round, true);
    SplitIsCarried(round, start, context.claim);
    RoundThen(start, between, after, quiet, still, context.claim, edits, applied.successors, ratings, rated.successors);
    CursorStaysBehind(between, after, context.pairingId, applied.nextLastChangelogId);
    if quiet && still && applied.unconfirmedCount + rated.pendingCount == 0 {
      ClearedTwice(start.log, between.log, after.log, cleared, applied.sentCount, more, rated.attemptedCount);
    }
  }

  // ----- The cycle -----

  const MAX_REASONABLE_CHANGELOG_ID := 1_000_000_000_000

  /** The cursor a request starts from; one that cannot be right reads as the beginning. */
  function GetLastChangelogId(cursor: int): (sent: int)
    ensures 0 <= cursor ==> 0 <= sent <= cursor
    ensures 0 <= cursor <= MAX_REASONABLE_CHANGELOG_ID ==> sent == cursor
  {
    if 0 <= cursor <= MAX_REASONABLE_CHANGELOG_ID then cursor else 0
  }

  datatype SyncResult = SyncResult(syncedCount: nat, hasMorePending: bool, ratingDelivered: bool)

  /** Releases whatever of `ids` the claim still holds. */
  method ReleaseHeldRows(store: Store, ids: set<nat>, claim: Claim, ghost pairingId: nat) returns (ghost messages: seq<Message>)
    requires store.Valid() && claim.owner == Js
    modifies store`log, store`nextId, store`animes, store`staged, store`pairing, store`now, store`history,
      store`ours, store`theirs, store`others
    ensures store.Valid() && old(store.history) <= store.history && |store.others| <= |old(store.others)|
    ensures Later(old(store.State()), store.State()) && Handed(old(store.log), store.log, claim, ids, {})
    ensures Tells(messages, claim, pairingId, store.origin, store.history, |old(store.history)|, |store.history|)
    ensures |messages| <= 1 && (messages != [] ==> messages[0].Release? && messages[0].ids <= ids) && RequestsOf(messages) == []
  {
    hide Run, Next, Traced, Confirmations, Sound, Handed, Later, Tells, OnlyOthers, Was, IsReleased, RequestsOf;
    ghost var start, begun := store.State(), store.history;
    assert Tells([], claim, pairingId, store.origin, begun, |begun|, |begun|) && RequestsOf([]) == [] by {
      SaidNothing(RoundContext(pairingId, 0, claim), store.origin, begun);
    }
    store.Interfere();
    ghost var read, heard := store.State(), store.history;
    TellsLonger([], claim, pairingId, store.origin, begun, heard, |begun|, |begun|, |heard|);
    messages := [];
    var held := HeldIds(store.log, ids, claim);
    if held == {} {
      NothingHappened(read, claim);
      HeldIsAll(start, read, read, ids, held, claim);
      return;
    }
    var released := ReleaseOperations(store, held, claim, Return);
    StateIsRun(store);
    messages := [Release(|heard|, held, released, Moment(|store.history|, store.State()))];
    ReleaseTells([], messages[0], RoundContext(pairingId, 0, claim), store.origin, heard, store.history, |begun|);
    assert [] + [messages[0]] == messages;
    LaterTwice(start, read, store.State());
    HeldIsAll(start, read, store.State(), ids, held, claim);
  }

  lemma HeldIsAll(start: Db, read: Db, after: Db, ids: set<nat>, held: set<nat>, claim: Claim)
    requires Undisturbed(start, read) && claim.owner == Js && held == HeldIds(read.log, ids, claim)
    requires Handed(read.log, after.log, claim, held, {})
    ensures Later(start, read) && Handed(start.log, after.log, claim, ids, {})
  {
    assert Handed(start.log, read.log, claim, {}, {});
    forall id | id in ids && Held(read.log, id, claim) ensures id in held {
    }
  }

  /** No claim is live at `now`. */
  ghost predicate NoLiveClaim(t: Table, now: int) { forall id | id in t :: !Live(t[id], now) }

  /** How far a chain has come. */
  datatype ChainTotals = ChainTotals(syncedCount: nat, readCount: nat, unconfirmedCount: nat, ratingDelivered: bool)

  function AddSplitRound(totals: ChainTotals, split: SplitOutcome): ChainTotals {
    ChainTotals(totals.syncedCount + split.round.confirmedCount, totals.readCount + split.round.sentCount,
      totals.unconfirmedCount + split.round.unconfirmedCount, totals.ratingDelivered || split.ratingDelivered)
  }

  /** A chain under way: under its claim only the next round and what was held before; nothing queued but what was. */
  ghost predicate Chaining(start: Db, db: Db, quiet: bool, context: RoundContext, rows: seq<Operation>,
                           round: seq<Operation>, cursor: int, claimed: set<nat>, totals: ChainTotals, settled: set<nat>)
  {
    && Handed(start.log, db.log, context.claim, IdsOf(rows), IdsOf(round))
    && Carried(round, db, context.claim) && IdsOf(round) <= claimed
    && ReadFromCursor(db.pairing, context.pairingId, cursor)
    && (quiet ==> QueuedIds(db.log) <= QueuedIds(start.log))
    && (quiet && totals.unconfirmedCount == 0 ==> Cleared(start.log, db.log, settled, totals.readCount))
  }

  lemma ChainStarts(start: Db, context: RoundContext, rows: seq<Operation>)
    requires Carried(rows, start, context.claim)
    requires ReadFromCursor(start.pairing, context.pairingId, context.lastChangelogId)
    ensures Chaining(start, start, true, context, rows, rows, context.lastChangelogId, IdsOf(rows),
                     ChainTotals(0, 0, 0, false), {})
  {
    NothingCleared(start.log);
  }

  lemma ChainGoesOn(start: Db, before: Db, after: Db, quiet: bool, still: bool, context: RoundContext,
                    rows: seq<Operation>, round: seq<Operation>, cursor: int, claimed: set<nat>, totals: ChainTotals,
                    settled: set<nat>, split: SplitOutcome, claimedIds: set<nat>, more: set<nat>)
    requires Chaining(start, before, quiet, context, rows, round, cursor, claimed, totals, settled)
    requires Round(before, after, still, context.claim, round, split.round.successors)
    requires IdsOf(split.round.successors) <= claimedIds
    requires ReadFromCursor(after.pairing, context.pairingId, split.round.nextLastChangelogId)
    requires still && split.round.unconfirmedCount == 0 ==> Cleared(before.log, after.log, more, split.round.sentCount)
    ensures Chaining(start, after, quiet && still, context, rows, split.round.successors, split.round.nextLastChangelogId,
                     claimedIds, AddSplitRound(totals, split), settled + more)
    ensures still ==> QueuedIds(after.log) <= QueuedIds(before.log)
    ensures still && split.round.successors != [] ==> |QueuedIds(after.log)| < |QueuedIds(before.log)|
    ensures still ==> |QueuedIds(after.log)| <= |QueuedIds(before.log)|
  {
    var totals' := AddSplitRound(totals, split);
    HandedTwice(start.log, before.log, after.log, context.claim, IdsOf(rows), IdsOf(round), IdsOf(round),
      IdsOf(split.round.successors));
    if quiet && still && totals'.unconfirmedCount == 0 {
      ClearedTwice(start.log, before.log, after.log, settled, totals.readCount, more, split.round.sentCount);
    }
    if still {
      FewerOrSame(QueuedIds(after.log), QueuedIds(before.log));
    }
  }

  lemma FewerOrSame(a: set<nat>, b: set<nat>)
    requires a <= b
    ensures |a| <= |b| && (a < b ==> |a| < |b|)
  {
    assert b == a + (b - a);
  }

  /** A round of nothing hands nothing on. */
  lemma NothingHandedOn(before: Db, after: Db, quiet: bool, claim: Claim, operations: seq<Operation>,
                        successors: seq<Operation>)
    requires Round(before, after, quiet, claim, operations, successors)
    ensures operations == [] ==> successors == []
  {
    assert successors != [] ==> successors[0].row.animeId in AnimeIdsOf(successors);
    assert operations == [] ==> AnimeIdsOf(operations) == {};
  }

  /** A failed round leaves under the claim only rows the cycle claimed: releasing those leaves nothing of it. */
  lemma ChainFails(start: Db, before: Db, failed: Db, after: Db, quiet: bool, context: RoundContext, rows: seq<Operation>,
                   round: seq<Operation>, cursor: int, claimed: set<nat>, totals: ChainTotals, settled: set<nat>,
                   claimedIds: set<nat>)
    requires Chaining(start, before, quiet, context, rows, round, cursor, claimed, totals, settled)
    requires Handed(before.log, failed.log, context.claim, {}, {}) && claimed <= claimedIds
    requires Handed(failed.log, after.log, context.claim, claimedIds, {})
    ensures Handed(start.log, after.log, context.claim, IdsOf(rows), {})
  {
    HandedTwice(start.log, before.log, failed.log, context.claim, IdsOf(rows), {}, IdsOf(round), {});
    HandedTwice(start.log, failed.log, after.log, context.claim, IdsOf(rows), claimedIds, IdsOf(round), {});
  }

  lemma ChainEnds(start: Db, db: Db, quiet: bool, context: RoundContext, rows: seq<Operation>, cursor: int,
                  claimed: set<nat>, totals: ChainTotals, settled: set<nat>)
    requires Chaining(start, db, quiet, context, rows, [], cursor, claimed, totals, settled)
    ensures Handed(start.log, db.log, context.claim, IdsOf(rows), {})
    ensures quiet ==> QueuedIds(db.log) <= QueuedIds(start.log)
    ensures quiet && totals.unconfirmedCount == 0 ==> Cleared(start.log, db.log, settled, totals.readCount)
  {
    assert IdsOf([]) == {};
  }

  /**
   * The chain of one claim: rounds go on while they hand a row on. Each round that does leaves fewer rows queued, unless
   * somebody else acted meanwhile, so it ends.
   */
  method RunChain(store: Store, context: RoundContext, rows: seq<Operation>)
    returns (result: Outcome<ChainTotals>, ghost settled: set<nat>, ghost messages: seq<Message>)
    requires store.Valid() && context.claim.owner == Js && Carried(rows, store.State(), context.claim)
    requires ReadFromCursor(store.pairing, context.pairingId, context.lastChangelogId)
    modifies store
    ensures store.Valid() && old(store.history) <= store.history && |store.others| <= |old(store.others)|
    ensures Handed(old(store.log), store.log, context.claim, IdsOf(rows), {})
    ensures result.Ok? ==>
      && store.ours == old(store.ours) + result.value.syncedCount
      && (result.value.ratingDelivered <==> old(store.graded) < store.graded)
      && (|store.others| == |old(store.others)| ==>
            && QueuedIds(store.log) <= old(QueuedIds(store.log))
            && (result.value.unconfirmedCount == 0 ==>
                  Cleared(old(store.log), store.log, settled, result.value.readCount)))
    ensures rows == [] && result.Ok? ==>
      && result.value.readCount == 0 && result.value.unconfirmedCount == 0
      && (|store.others| == |old(store.others)| ==> store.log == old(store.log))
    ensures Tells(messages, context.claim, context.pairingId, store.origin, store.history, |old(store.history)|, |store.history|)
    ensures store.wire == old(store.wire) + RequestsOf(messages)
    ensures if result.Ok? then Succeeds(messages) else FailsWith(messages, result.failure)
    ensures result.Ok? ==> Counted(messages, result.value.readCount, result.value.unconfirmedCount)
    ensures StartsWithEdits(messages, context, rows)
    ensures |store.others| == |old(store.others)| ==> StartsWithAllItCan(messages, old(store.State()), context.claim, rows)
  {
    hide Run, Next, Traced, Confirmations, Sound, Carried, Handed, Later, Round, Cleared, ReadFromCursor, Chaining, IdsOf,
      QueuedIds, Tells, RequestsOf, Succeeds, AllGetThrough, FailsWith, StartsWithEdits, StartsWithAllItCan, Delivers,
      WellFormedRequest, Counted;
    ghost var start, begun := store.State(), store.history;
    messages := [];
    SaidNothing(context, store.origin, store.history);
    NothingCounted();
    var round, cursor, firstRound, totals := rows, context.lastChangelogId, true, ChainTotals(0, 0, 0, false);
    var claimedIds := IdsOf(rows);
    settled := {};
    ChainStarts(start, context, rows);
    ChainIsCarried(start, start, true, context, rows, round, cursor, claimedIds, totals, settled);
    while firstRound || round != []
      invariant store.Valid() && old(store.history) <= store.history && |store.others| <= |old(store.others)|
      invariant Chaining(start, store.State(), |store.others| == |old(store.others)|, context, rows, round, cursor,
                         claimedIds, totals, settled)
      invariant Carried(round, store.State(), context.claim)
      invariant ReadFromCursor(store.pairing, context.pairingId, cursor)
      invariant store.ours == old(store.ours) + totals.syncedCount
      invariant old(store.graded) <= store.graded && (totals.ratingDelivered <==> old(store.graded) < store.graded)
      invariant rows == [] ==>
        && round == [] && totals.readCount == 0 && totals.unconfirmedCount == 0
        && (|store.others| == |old(store.others)| ==> store.log == old(store.log))
      invariant Tells(messages, context.claim, context.pairingId, store.origin, store.history, |begun|, |store.history|)
      invariant store.wire == old(store.wire) + RequestsOf(messages)
      invariant firstRound ==> messages == [] && round == rows && cursor == context.lastChangelogId && store.State() == start
      invariant !firstRound ==> Succeeds(messages) && StartsWithEdits(messages, context, rows)
      invariant Counted(messages, totals.readCount, totals.unconfirmedCount)
      invariant !firstRound && |store.others| == |old(store.others)| ==> StartsWithAllItCan(messages, start, context.claim, rows)
      decreases firstRound, |store.others|, |QueuedIds(store.log)| + if round != [] then 1 else 0
    {
      ghost var before, left, quiet := store.State(), |store.others|, |store.others| == |old(store.others)|;
      ghost var claimed, told, wired := claimedIds, store.history, store.wire;
      var outcome, nowClaimed, more, said :=
        SendSplitRound(store, context.(lastChangelogId := cursor), round, firstRound, claimedIds);
      claimedIds := nowClaimed;
      SaidMore(messages, said, context, store.origin, told, store.history, |begun|, rows, start);
      if outcome.Ok? {
        CountsJoin(messages, said, totals.readCount, totals.unconfirmedCount, outcome.value.round.sentCount,
          outcome.value.round.unconfirmedCount);
      }
      messages := messages + said;
      if outcome.Err? {
        ghost var failed, heard := store.State(), store.history;
        var released := ReleaseHeldRows(store, claimedIds, context.claim, context.pairingId);
        SaidMore(messages, released, context, store.origin, heard, store.history, |begun|, rows, start);
        FailsLonger(messages, released, outcome.failure);
        messages := messages + released;
        ChainFails(start, before, failed, store.State(), quiet, context, rows, round, cursor, claimed, totals, settled,
          claimedIds);
        return Err(outcome.failure), {}, messages;
      }
      ChainGoesOn(start, before, store.State(), quiet, |store.others| == left, context, rows, round, cursor, claimed,
        totals, settled, outcome.value, claimedIds, more);
      NothingHandedOn(before, store.State(), |store.others| == left, context.claim, round, outcome.value.round.successors);
      totals, settled := AddSplitRound(totals, outcome.value), settled + more;
      round, cursor, firstRound := outcome.value.round.successors, outcome.value.round.nextLastChangelogId, false;
      ChainIsCarried(start, store.State(), quiet && |store.others| == left, context, rows, round, cursor, claimedIds,
        totals, settled);
    }
    ChainEnds(start, store.State(), |store.others| == |old(store.others)|, context, rows, cursor, claimedIds, totals, settled);
    return Ok(totals), settled, messages;
  }

  lemma ChainIsCarried(start: Db, db: Db, quiet: bool, context: RoundContext, rows: seq<Operation>, round: seq<Operation>,
                       cursor: int, claimed: set<nat>, totals: ChainTotals, settled: set<nat>)
    requires Chaining(start, db, quiet, context, rows, round, cursor, claimed, totals, settled)
    ensures Carried(round, db, context.claim) && ReadFromCursor(db.pairing, context.pairingId, cursor)
  {
  }

  /** The first half of a cycle: a batch of the backlog under a fresh claim, and how much was queued at that time. */
  method TakeBacklog(store: Store, pairingId: nat, cursor: int)
    returns (claim: Claim, rows: seq<Operation>, total: nat, ghost taken: Moment)
    requires store.Valid() && store.pairing.Some?
    requires store.pairing.value.id == pairingId && cursor <= store.pairing.value.cursor
    modifies store`log, store`nextId, store`animes, store`staged, store`pairing, store`now, store`history,
      store`ours, store`theirs, store`others
    ensures store.Valid() && old(store.history) <= store.history && store.ours == old(store.ours)
    ensures |store.others| <= |old(store.others)|
    ensures claim.owner == Js && old(store.now) <= claim.claimedAt
    ensures Carried(rows, store.State(), claim) && ReadFromCursor(store.pairing, pairingId, cursor)
    ensures Handed(old(store.log), store.log, claim, {}, IdsOf(rows))
    ensures IsTaken(taken, rows, claim, store.origin, store.history, |old(store.history)|)
    ensures |store.others| == |old(store.others)| ==>
      && taken.db == old(store.State()) && store.State() == Taken(taken, claim)
      && QueuedIds(store.log) == old(QueuedIds(store.log))
      && |rows| == |Backlog(old(store.log), LiveClaimFloor(claim.claimedAt), RECONCILE_BACKLOG_BATCH_LIMIT)|
      && total == if rows != [] then |QueuedIds(store.log)| else 0
  {
    hide Run, Next, Traced, Confirmations, Sound, Carried, Handed, Later, Undisturbed, Exclusive, Backlog,
      ReadFromCursor, IdsOf, QueuedIds, Takes, Was, OnlyOthers, WellFormedRequest, IsTaken, Taken;
    ghost var start, begun := store.State(), store.history;
    store.Interfere();
    ghost var before, asked := store.State(), store.history;
    taken := Moment(|asked|, before);
    StateIsRun(store);
    claim, rows := store.ClaimOperationLogBatch(RECONCILE_BACKLOG_BATCH_LIMIT);
    ghost var claimed, claimedHistory := store.State(), store.history;
    StateIsRun(store);
    BatchIsTaken(store.origin, asked, claimedHistory, claim, taken, Moment(|claimedHistory|, claimed));
    store.Interfere();
    ghost var counted, countedHistory := store.State(), store.history;
    total := if rows != [] then |QueuedIds(store.log)| else 0;
    store.Interfere();
    OthersLonger(countedHistory, store.history, |claimedHistory|, |countedHistory|, |store.history|);
    TakenIs(taken, claimed, rows, claim, store.origin, |begun|, asked, claimedHistory, store.history);
    CycleIsReady(start, before, claimed, counted, store.State(), claim, rows, pairingId, cursor);
  }

  /**
   * Runs one claim and the chain of rounds it leads to. Whatever the bridge answers and whoever else acts, it ends, and
   * when it returns or fails no row is held under its claim that was not before: none at all when its claim is newer than
   * the last transaction. It counts every row it synced exactly once. With nobody else acting, a report of nothing more
   * pending leaves the queue empty if and only if the queue was empty or some row of it was claimable: with every key
   * claimed already, the report is always that nothing is pending, and nothing has moved.
   */
  method SyncPendingOperations(store: Store)
    returns (result: Outcome<SyncResult>, claim: Claim, ghost taken: Moment, ghost batch: seq<Operation>,
             ghost messages: seq<Message>)
    requires store.Valid()
    modifies store
    ensures store.Valid() && old(store.history) <= store.history
    ensures claim.owner == Js && forall id | Held(store.log, id, claim) :: Held(old(store.log), id, claim)
    ensures old(store.now) <= claim.claimedAt
    ensures old(store.now) < claim.claimedAt ==> forall id :: !Held(store.log, id, claim)
    ensures old(store.pairing).None? ==> result == Err(NotPaired) && store.history == old(store.history) && messages == []
    ensures old(store.pairing).Some? ==>
      IsTold(messages, taken, batch, claim, old(store.pairing).value, store.origin, store.history, |old(store.history)|)
    ensures old(store.pairing).Some? ==> if result.Ok? then Succeeds(messages) else FailsWith(messages, result.failure)
    ensures store.wire == old(store.wire) + RequestsOf(messages)
    ensures old(store.pairing).Some? && |store.others| == |old(store.others)| ==>
      && taken.db == old(store.State())
      && StartsWithAllItCan(messages, Taken(taken, claim), claim, batch)
    ensures result.Ok? ==>
      && store.ours == old(store.ours) + result.value.syncedCount
      && (result.value.ratingDelivered <==> old(store.graded) < store.graded)
    ensures |store.others| <= |old(store.others)|
    ensures result.Ok? && |store.others| == |old(store.others)| ==>
      (result.value.hasMorePending <==>
         LeftIn(messages) > 0 || (batch != [] && |old(QueuedIds(store.log))| > SentIn(messages)))
    ensures result.Ok? && |store.others| == |old(store.others)| ==>
      var claimable := ClaimableIds(old(store.log), LiveClaimFloor(claim.claimedAt));
      && (claimable == {} ==> !result.value.hasMorePending && QueuedIds(store.log) == old(QueuedIds(store.log)))
      && (!result.value.hasMorePending ==>
            (QueuedIds(store.log) == {} <==> old(QueuedIds(store.log)) == {} || claimable != {}))
  {
    hide Run, Next, Traced, Confirmations, Carried, Handed, Later, Cleared, Undisturbed, WellFormed, Exclusive, Backlog,
      ReadFromCursor, IdsOf, QueuedIds, ClaimableIds, Takes, Tells, RequestsOf, Was, OnlyOthers, Succeeds, FailsWith,
      StartsWithEdits, StartsWithAllItCan, WellFormedRequest, IsTold, Taken, SentIn, LeftIn;
    claim := Claim(Js, store.now);
    taken, batch, messages := Moment(0, store.State()), [], [];
    if store.pairing.None? {
      assert RequestsOf([]) == [] by { SaidNothing(RoundContext(0, 0, claim), store.origin, store.history); }
      return Err(NotPaired), claim, taken, batch, messages;
    }
    ghost var start, begun := store.State(), store.history;
    var pairingId, cursor := store.pairing.value.id, GetLastChangelogId(store.pairing.value.cursor);
    var rows, total;
    claim, rows, total, taken := TakeBacklog(store, pairingId, cursor);
    batch := rows;
    ghost var ready, readyHistory := store.State(), store.history;
    var chain, settled, said := RunChain(store, RoundContext(pairingId, cursor, claim), rows);
    messages := said;
    CycleIsTold(messages, taken, batch, claim, start.pairing.value, cursor, store.origin, |begun|, readyHistory, store.history);
    CycleHeldNothing(start, ready, store.State(), claim, rows);
    if chain.Err? {
      return Err(chain.failure), claim, taken, batch, messages;
    }
    var totals := chain.value;
    var hasMorePending := totals.unconfirmedCount > 0 || total > totals.readCount;
    if |store.others| == |old(store.others)| {
      BatchIsEmptyExactlyWhen(start.log, LiveClaimFloor(claim.claimedAt));
      if rows != [] && !hasMorePending {
        ReportIsHonest(ready, store.State(), totals.readCount, settled);
      }
    }
    return Ok(SyncResult(totals.syncedCount, hasMorePending, totals.ratingDelivered)), claim, taken, batch, messages;
  }

  /** Between the claim and the first round the others may act; what was claimed is still what was read. */
  lemma CycleIsReady(start: Db, before: Db, batch: Db, counted: Db, ready: Db, claim: Claim, rows: seq<Operation>,
                     pairingId: nat, cursor: int)
    requires claim.owner == Js && Undisturbed(start, before) && Later(before, batch)
    requires Undisturbed(batch, counted) && Undisturbed(counted, ready)
    requires Handed(before.log, batch.log, claim, {}, IdsOf(rows)) && Carried(rows, batch, claim)
    requires start.pairing.Some? && start.pairing.value.id == pairingId && cursor <= start.pairing.value.cursor
    ensures Carried(rows, ready, claim) && ReadFromCursor(ready.pairing, pairingId, cursor)
    ensures Handed(start.log, ready.log, claim, {}, IdsOf(rows)) && start.now <= batch.now
  {
    UndisturbedTwice(batch, counted, ready);
    LaterTwice(start, before, batch);
    LaterTwice(start, batch, ready);
    CursorStaysBehind(start, ready, pairingId, cursor);
    CarriedThroughOthers(rows, batch, ready, claim);
    HandedTwice(start.log, before.log, batch.log, claim, {}, {}, {}, IdsOf(rows));
    HandedTwice(start.log, batch.log, ready.log, claim, {}, {}, IdsOf(rows), {});
  }

  lemma CycleHeldNothing(start: Db, ready: Db, after: Db, claim: Claim, rows: seq<Operation>)
    requires WellFormed(start)
    requires Handed(start.log, ready.log, claim, {}, IdsOf(rows)) && Handed(ready.log, after.log, claim, IdsOf(rows), {})
    ensures forall id | Held(after.log, id, claim) :: Held(start.log, id, claim)
    ensures start.now < claim.claimedAt ==> forall id :: !Held(after.log, id, claim)
  {
  }

  /** The batch is empty exactly when no queued row is claimable, and only then is the backlog not counted. */
  lemma BatchIsEmptyExactlyWhen(t: Table, floor: int)
    ensures Backlog(t, floor, RECONCILE_BACKLOG_BATCH_LIMIT) == [] <==> ClaimableIds(t, floor) == {}
    ensures QueuedIds(t) == {} ==> ClaimableIds(t, floor) == {}
  {
    assert ClaimableIds(t, floor) == {} <==> |ClaimableIds(t, floor)| == 0;
    assert ClaimableIds(t, floor) <= QueuedIds(t);
  }

  /** With no claim live, no key is claimed: an empty batch means an empty queue. */
  lemma EmptyBatchMeansEmptyQueue(start: Db, claim: Claim)
    requires NoLiveClaim(start.log, start.now) && start.now <= claim.claimedAt
    requires Backlog(start.log, LiveClaimFloor(claim.claimedAt), RECONCILE_BACKLOG_BATCH_LIMIT) == []
    ensures QueuedIds(start.log) == {}
  {
    var floor := LiveClaimFloor(claim.claimedAt);
    BatchIsEmptyExactlyWhen(start.log, floor);
    NothingClaimableExactlyWhen(start.log, floor);
    assert forall id | id in start.log :: !ClaimedAfter(start.log[id], floor) by {
      assert forall id | id in start.log :: !Live(start.log[id], start.now);
    }
    assert forall id :: id !in QueuedIds(start.log);
  }

  lemma ReportIsHonest(batch: Db, after: Db, readCount: nat, settled: set<nat>)
    requires |QueuedIds(batch.log)| <= readCount
    requires QueuedIds(after.log) <= QueuedIds(batch.log)
    requires Cleared(batch.log, after.log, settled, readCount)
    ensures QueuedIds(after.log) == {}
  {
    var queue := QueuedIds(batch.log);
    assert settled == queue by {
      FewerOrSame(settled, queue);
    }
  }

  /** One anime with an edit the native runtime is sending, and nothing else. */
  function HeldElsewhere(animeId: AnimeId, payload: Payload): Db {
    var row := FreshRow(animeId, ANIME_UPDATE_OPERATION, payload, 10).(
      status := Processing, claim := Some(Claim(Native, 20)));
    Db(map[0 := row], 1, map[], [], Some(Pairing(0, 0)), 20)
  }

  lemma HeldElsewhereHidesTheBacklog(animeId: AnimeId, payload: Payload, at: int)
    requires 20 <= at < 20 + OUTBOX_CLAIM_TTL_MS
    ensures var db := HeldElsewhere(animeId, payload);
      && Sound(db) && QueuedIds(db.log) == {0}
      && ClaimableIds(db.log, LiveClaimFloor(at)) == {}
  {
    var db := HeldElsewhere(animeId, payload);
    assert db.log[0].animeId == animeId;
    assert KeyClaimed(db.log, animeId, LiveClaimFloor(at));
  }

  /** The failing case: with its only key held elsewhere, a cycle that succeeds reports nothing pending over a queued row. */
  method ReportOverAHeldKey(animeId: AnimeId, payload: Payload)
    returns (result: Outcome<SyncResult>, queued: set<nat>, claim: Claim)
    ensures result.Ok? && claim.claimedAt < 20 + OUTBOX_CLAIM_TTL_MS ==> !result.value.hasMorePending && queued == {0}
  {
    hide QueuedIds, ClaimableIds, Run, Next, Traced, Sound, Confirmations;
    var db := HeldElsewhere(animeId, payload);
    HeldElsewhereHidesTheBacklog(animeId, payload, 20);
    var store := new Store(db, []);
    ghost var taken, batch, messages;
    result, claim, taken, batch, messages := SyncPendingOperations(store);
    queued := QueuedIds(store.log);
    if claim.claimedAt < 20 + OUTBOX_CLAIM_TTL_MS {
      HeldElsewhereHidesTheBacklog(animeId, payload, claim.claimedAt);
    }
  }
}
