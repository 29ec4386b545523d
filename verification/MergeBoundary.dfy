/** The merge boundary: the decision, the application of accepted changes, and one pass with deferral. */
module MergeBoundary {
  import opened Basics
  import opened AnimeTable
  import opened FieldMerge

  datatype ChangeType = Create | Update | Delete

  datatype RemoteChange = RemoteChange(
    recordId: AnimeId,
    changeType: ChangeType,
    changedFields: seq<FieldName>,
    snapshot: Option<Anime>,
    timestamp: int)

  /** The snapshot of a change, when there is one, describes the change's own record. */
  predicate Coherent(change: RemoteChange) { change.snapshot.Some? ==> change.snapshot.value.id == change.recordId }

  datatype Decision = Apply | Remove | DropStale | DeferOutbox

  /** What a pass reads once, before it writes: the guards of the rows and the un-acked edits. */
  datatype MergeContext = MergeContext(guards: map<AnimeId, Option<int>>, unacked: set<AnimeId>)

  function DecideMerge(change: RemoteChange, context: MergeContext): Decision {
    if change.changeType == Delete then Remove
    else if change.recordId in context.unacked then DeferOutbox
    else
      var guard := if change.recordId in context.guards then context.guards[change.recordId] else None;
      if IsStale(change.timestamp, guard) then DropStale else Apply
  }

  datatype AcceptedOutcome = Applied | Rejected | Skipped

  /** Writes one accepted create or update. */
  function ApplyAccepted(animes: Animes, change: RemoteChange): (Animes, AcceptedOutcome) {
    if change.snapshot.None? then (animes, Skipped)
    else
      var anime := change.snapshot.value;
      if change.changeType == Create || change.recordId !in animes
      then (Upsert(animes, anime, Some(change.timestamp), None), Applied)
      else if change.changedFields == [] then (animes, Rejected)
      else (ApplyPartial(animes, change.recordId, PartialColumns(change.changedFields, anime), change.timestamp), Applied)
  }

  function ApplyChange(animes: Animes, change: RemoteChange, context: MergeContext): Animes {
    match DecideMerge(change, context)
    case Remove => animes - {change.recordId}
    case Apply => ApplyAccepted(animes, change).0
    case DropStale => animes
    case DeferOutbox => animes
  }

  function ApplyChanges(animes: Animes, changes: seq<RemoteChange>, context: MergeContext): Animes {
    if changes == [] then animes
    else ApplyChange(ApplyChanges(animes, changes[..|changes| - 1], context), changes[|changes| - 1], context)
  }

  /** How a pass counts its changes: written, stale, deferred and rejected ones. */
  datatype Tally = Tally(applied: nat, dropped: nat, deferred: nat, rejected: nat)

  function CountOne(tally: Tally, animes: Animes, change: RemoteChange, context: MergeContext): Tally {
    match DecideMerge(change, context)
    case Remove => tally.(applied := tally.applied + 1)
    case Apply =>
      (match ApplyAccepted(animes, change).1
       case Applied => tally.(applied := tally.applied + 1)
       case Rejected => tally.(rejected := tally.rejected + 1)
       case Skipped => tally)
    case DropStale => tally.(dropped := tally.dropped + 1)
    case DeferOutbox => tally.(deferred := tally.deferred + 1)
  }

  function TallyOf(animes: Animes, changes: seq<RemoteChange>, context: MergeContext): Tally {
    if changes == [] then Tally(0, 0, 0, 0)
    else
      var before := changes[..|changes| - 1];
      CountOne(TallyOf(animes, before, context), ApplyChanges(animes, before, context), changes[|changes| - 1], context)
  }

  /** The change is turned away: its anime has an edit to be sent, it is no newer than the row, or it says nothing. */
  predicate IsTurnedAway(animes: Animes, change: RemoteChange, unacked: set<AnimeId>) {
    && change.changeType != Delete
    && (change.recordId in unacked || change.snapshot.None?
        || (change.recordId in animes && animes[change.recordId].guard.Some?
            && change.timestamp <= animes[change.recordId].guard.value)
        || (change.changeType == Update && change.recordId in animes && change.changedFields == []))
  }

  /**
   * What one change leaves of its row, decided on the rows it is applied to: nothing for a delete, the row as it was when
   * it is turned away, every column of the snapshot for a create or an unknown anime, the named ones otherwise; and then
   * the guard is the change's time and the token is as it was. No other row is written.
   */
  lemma OneChangeWrites(animes: Animes, change: RemoteChange, unacked: set<AnimeId>)
    requires Coherent(change)
    ensures var id := change.recordId;
      var after := ApplyChange(animes, change, ContextOf(animes, unacked));
      && (forall other: AnimeId | other != id :: other in after <==> other in animes)
      && (forall other | other in animes && other != id :: after[other] == animes[other])
      && (change.changeType == Delete ==> id !in after)
      && (IsTurnedAway(animes, change, unacked) ==> after == animes)
      && (change.changeType != Delete && !IsTurnedAway(animes, change, unacked) ==>
            && id in after && change.snapshot.Some? && after[id].guard == Some(change.timestamp)
            && after[id].token == (if id in animes then animes[id].token else None)
            && forall column: Column ::
                 if id !in animes || change.changeType == Create || FieldMerge.Names(change.changedFields, column)
                 then Stores(Get(after[id].columns, column), change.snapshot.value.fields, column)
                 else Get(after[id].columns, column) == Get(animes[id].columns, column))
  {
    var id, context := change.recordId, ContextOf(animes, unacked);
    if DecideMerge(change, context) == Apply && change.snapshot.Some? {
      var anime := change.snapshot.value;
      UpsertStoresTheSnapshot(animes, anime, Some(change.timestamp), None);
      if id in animes {
        PartialStoresTheNamedFields(animes, id, change.changedFields, anime, change.timestamp);
      }
      hide Upsert, ApplyPartial, PartialColumns, Stores, FieldMerge.Names;
    }
  }

  /** How many of the changes `p` holds of. */
  function CountWhere(p: RemoteChange -> bool, changes: seq<RemoteChange>): nat {
    if changes == [] then 0
    else CountWhere(p, changes[..|changes| - 1]) + if p(changes[|changes| - 1]) then 1 else 0
  }

  /**
   * The counters miss nothing but changes with no snapshot to write: what is not dropped, deferred or rejected is
   * applied, and an anime is only ever written by an applied change.
   */
  lemma {:induction false} TallyAccountsForEveryChange(animes: Animes, changes: seq<RemoteChange>, context: MergeContext)
    ensures var tally := TallyOf(animes, changes, context);
      && tally.dropped == CountWhere(change => DecideMerge(change, context) == DropStale, changes)
      && tally.deferred == CountWhere(change => DecideMerge(change, context) == DeferOutbox, changes)
      && tally.applied + tally.rejected + tally.dropped + tally.deferred
         == |changes| - CountWhere(change => DecideMerge(change, context) == Apply && change.snapshot.None?, changes)
      && (tally.applied == 0 ==> ApplyChanges(animes, changes, context) == animes)
  {
    if changes != [] {
      TallyAccountsForEveryChange(animes, changes[..|changes| - 1], context);
    }
  }

  /** One change of a pass; a staged one carries its position in the staging table. */
  datatype Entry = Entry(staging: Option<nat>, change: RemoteChange)

  function Insert(entry: Entry, sorted: seq<Entry>): seq<Entry> {
    if sorted == [] || entry.change.timestamp <= sorted[0].change.timestamp then [entry] + sorted
    else [sorted[0]] + Insert(entry, sorted[1..])
  }

  /** The stable sort by timestamp: entries of the same time keep their order. */
  function ByTimestamp(entries: seq<Entry>): seq<Entry> {
    if entries == [] then [] else Insert(entries[0], ByTimestamp(entries[1..]))
  }

  function ChangesOf(entries: seq<Entry>): seq<RemoteChange> { seq(|entries|, i requires 0 <= i < |entries| => entries[i].change) }

  function StagedEntries(staged: seq<RemoteChange>): seq<Entry> {
    seq(|staged|, i requires 0 <= i < |staged| => Entry(Some(i), staged[i]))
  }

  function IncomingEntries(incoming: seq<RemoteChange>): seq<Entry> {
    seq(|incoming|, i requires 0 <= i < |incoming| => Entry(None, incoming[i]))
  }

  /** The entries of a pass: the staged changes first, then the incoming ones, ordered by timestamp. */
  function PassEntries(staged: seq<RemoteChange>, incoming: seq<RemoteChange>): seq<Entry> {
    ByTimestamp(StagedEntries(staged) + IncomingEntries(incoming))
  }

  function ContextOf(animes: Animes, unacked: set<AnimeId>): MergeContext {
    MergeContext(map id | id in animes :: animes[id].guard, unacked)
  }

  /** A delete of the same anime at the same time or later is in the pass. */
  predicate Dominated(change: RemoteChange, changes: seq<RemoteChange>) {
    exists i | 0 <= i < |changes| :: changes[i].changeType == Delete && changes[i].recordId == change.recordId
                                     && changes[i].timestamp >= change.timestamp
  }

  /** A deferred change stays staged unless a delete of this pass dominates it. */
  predicate KeptDeferred(change: RemoteChange, changes: seq<RemoteChange>, context: MergeContext) {
    DecideMerge(change, context) == DeferOutbox && !Dominated(change, changes)
  }

  /** The staged rows a pass keeps, in table order. */
  function KeptStaged(staged: seq<RemoteChange>, changes: seq<RemoteChange>, context: MergeContext): seq<RemoteChange> {
    if staged == [] then []
    else
      var last := staged[|staged| - 1];
      var before := KeptStaged(staged[..|staged| - 1], changes, context);
      if KeptDeferred(last, changes, context) then before + [last] else before
  }

  /** The incoming changes a pass stages, in pass order. */
  function KeptIncoming(entries: seq<Entry>, changes: seq<RemoteChange>, context: MergeContext): seq<RemoteChange> {
    if entries == [] then []
    else
      var last := entries[|entries| - 1];
      var before := KeptIncoming(entries[..|entries| - 1], changes, context);
      if last.staging.None? && KeptDeferred(last.change, changes, context) then before + [last.change] else before
  }

  /** One merge pass: the rows it leaves and the staging table it leaves. */
  function Pass(animes: Animes, staged: seq<RemoteChange>, incoming: seq<RemoteChange>, unacked: set<AnimeId>)
    : (result: (Animes, seq<RemoteChange>))
  {
    var entries := PassEntries(staged, incoming);
    var changes := ChangesOf(entries);
    var context := ContextOf(animes, unacked);
    (ApplyChanges(animes, changes, context),
     KeptStaged(staged, changes, context) + KeptIncoming(entries, changes, context))
  }
}
