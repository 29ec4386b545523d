/** Deferring a remote change does not change the outcome: staged changes replayed later equal direct application. */
module MergeOutcome {
  import opened Basics
  import opened OutboxTable
  import opened AnimeTable
  import opened FieldMerge
  import opened MergeBoundary
  import opened MergeOrder
  import opened SnapshotHeal
  import opened Protocol

  // ----- The reference: applying every change to one row, in order, with nothing deferred -----

  function DirectOne(row: Option<AnimeRow>, change: RemoteChange): Option<AnimeRow> {
    if change.changeType == Delete then None
    else if change.snapshot.None? then row
    else
      var anime := change.snapshot.value;
      if row.None? then Some(AnimeRow(map[] + UpsertColumns(anime), Some(change.timestamp), None))
      else if change.changeType == Create
      then Some(AnimeRow(row.value.columns + UpsertColumns(anime), Some(change.timestamp), row.value.token))
      else if change.changedFields == [] then row
      else Some(AnimeRow(row.value.columns + PartialColumns(change.changedFields, anime), Some(change.timestamp),
                         row.value.token))
  }

  function Direct(row: Option<AnimeRow>, changes: seq<RemoteChange>): Option<AnimeRow> {
    if changes == [] then row else DirectOne(Direct(row, changes[..|changes| - 1]), changes[|changes| - 1])
  }

  lemma {:induction false} DirectConcat(row: Option<AnimeRow>, a: seq<RemoteChange>, b: seq<RemoteChange>)
    ensures Direct(row, a + b) == Direct(Direct(row, a), b)
  {
    if b == [] {
      assert a + b == a;
    } else {
      DirectConcat(row, a, b[..|b| - 1]);
      assert (a + b)[..|a + b| - 1] == a + b[..|b| - 1];
    }
  }

  /** Two rows agree on existence, guard and every column but the `touched` ones. */
  ghost predicate Similar(touched: set<Column>, a: Option<AnimeRow>, b: Option<AnimeRow>) {
    && a.Some? == b.Some?
    && (a.Some? ==>
          && a.value.guard == b.value.guard
          && forall column: Column | column !in touched ::
               Get(a.value.columns, column) == Get(b.value.columns, column))
  }

  lemma {:induction false} DirectKeepsSimilar(touched: set<Column>, a: Option<AnimeRow>, b: Option<AnimeRow>, changes: seq<RemoteChange>)
    requires Similar(touched, a, b)
    ensures Similar(touched, Direct(a, changes), Direct(b, changes))
  {
    if changes != [] {
      DirectKeepsSimilar(touched, a, b, changes[..|changes| - 1]);
    }
  }

  // ----- One pass, read on one record -----

  predicate AllCoherent(changes: seq<RemoteChange>) { forall i | 0 <= i < |changes| :: Coherent(changes[i]) }

  /** Every change is strictly newer than the row's guard. */
  ghost predicate Newer(row: Option<AnimeRow>, changes: seq<RemoteChange>) {
    row.Some? && row.value.guard.Some? ==>
      forall i | 0 <= i < |changes| :: changes[i].timestamp > row.value.guard.value
  }

  lemma NewerParts(row: Option<AnimeRow>, a: seq<RemoteChange>, b: seq<RemoteChange>)
    ensures Newer(row, a + b) <==> Newer(row, a) && Newer(row, b)
  {
    assert forall i | 0 <= i < |a| :: a[i] == (a + b)[i];
    assert forall i | 0 <= i < |b| :: b[i] == (a + b)[|a| + i];
  }

  lemma AcceptedOnRow(animes: Animes, change: RemoteChange, id: AnimeId)
    requires Coherent(change) && change.changeType != Delete
    ensures LocalRow(ApplyAccepted(animes, change).0, id)
      == if change.recordId == id then DirectOne(LocalRow(animes, id), change) else LocalRow(animes, id)
  {
  }

  /** A pass over an anime with no un-acked edit applies each of its changes, in order. */
  lemma {:induction false} OpenPassIsDirect(animes: Animes, changes: seq<RemoteChange>, context: MergeContext, id: AnimeId)
    requires AllCoherent(changes) && id !in context.unacked
    requires forall i | 0 <= i < |changes| && changes[i].recordId == id && changes[i].changeType != Delete ::
      DecideMerge(changes[i], context) == Apply
    ensures LocalRow(ApplyChanges(animes, changes, context), id) == Direct(LocalRow(animes, id), OfAnime(changes, id))
  {
    if changes != [] {
      var before := changes[..|changes| - 1];
      var last := changes[|changes| - 1];
      OpenPassIsDirect(animes, before, context, id);
      var row := ApplyChanges(animes, before, context);
      if last.changeType != Delete {
        AcceptedOnRow(row, last, id);
      }
      if last.recordId == id {
        assert (OfAnime(before, id) + [last])[..|OfAnime(before, id)|] == OfAnime(before, id);
      }
    }
  }

  predicate HasDelete(changes: seq<RemoteChange>) {
    exists i | 0 <= i < |changes| :: changes[i].changeType == Delete
  }

  /** The changes after the last delete. */
  function AfterDeletes(changes: seq<RemoteChange>): seq<RemoteChange> {
    if changes == [] then []
    else
      var last := changes[|changes| - 1];
      if last.changeType == Delete then [] else AfterDeletes(changes[..|changes| - 1]) + [last]
  }

  /** A pass over an anime with an un-acked edit applies only its deletes. */
  lemma {:induction false} BlockedPassDeletes(animes: Animes, changes: seq<RemoteChange>, context: MergeContext, id: AnimeId)
    requires AllCoherent(changes) && id in context.unacked
    ensures LocalRow(ApplyChanges(animes, changes, context), id)
      == if HasDelete(OfAnime(changes, id)) then None else LocalRow(animes, id)
  {
    if changes != [] {
      var before := changes[..|changes| - 1];
      var last := changes[|changes| - 1];
      BlockedPassDeletes(animes, before, context, id);
      var mine := OfAnime(changes, id);
      if last.changeType != Delete {
        AcceptedOnRow(ApplyChanges(animes, before, context), last, id);
      }
      if last.recordId == id {
        assert mine == OfAnime(before, id) + [last];
        assert HasDelete(mine) <==> HasDelete(OfAnime(before, id)) || last.changeType == Delete by {
          if last.changeType == Delete {
            assert mine[|mine| - 1] == last;
          }
          if HasDelete(OfAnime(before, id)) {
            var i :| 0 <= i < |OfAnime(before, id)| && OfAnime(before, id)[i].changeType == Delete;
            assert mine[i].changeType == Delete;
          }
        }
      }
    }
  }

  /** Applying the deletes at once and the changes after them later comes to the same row. */
  lemma {:induction false} DeferredReplay(row: Option<AnimeRow>, changes: seq<RemoteChange>)
    ensures Direct(if HasDelete(changes) then None else row, AfterDeletes(changes)) == Direct(row, changes)
  {
    if changes != [] {
      var before := changes[..|changes| - 1];
      var last := changes[|changes| - 1];
      DeferredReplay(row, before);
      if last.changeType == Delete {
        assert changes[|changes| - 1].changeType == Delete;
      } else {
        assert HasDelete(changes) <==> HasDelete(before);
        assert (AfterDeletes(before) + [last])[..|AfterDeletes(before)|] == AfterDeletes(before);
      }
    }
  }

  // ----- What a pass keeps staged for one record -----

  lemma OfAnimeLast(list: seq<RemoteChange>, last: RemoteChange, id: AnimeId)
    ensures OfAnime(list + [last], id) == if last.recordId == id then OfAnime(list, id) + [last] else OfAnime(list, id)
  {
    assert (list + [last])[..|list|] == list;
  }

  lemma KeptLast(list: seq<RemoteChange>, last: RemoteChange, changes: seq<RemoteChange>, context: MergeContext)
    ensures KeptStaged(list + [last], changes, context)
      == if KeptDeferred(last, changes, context) then KeptStaged(list, changes, context) + [last]
         else KeptStaged(list, changes, context)
  {
    assert (list + [last])[..|list|] == list;
  }

  lemma {:induction false} KeptOfAnime(list: seq<RemoteChange>, changes: seq<RemoteChange>, context: MergeContext, id: AnimeId)
    ensures OfAnime(KeptStaged(list, changes, context), id) == KeptStaged(OfAnime(list, id), changes, context)
  {
    if list != [] {
      var before := list[..|list| - 1];
      var last := list[|list| - 1];
      KeptOfAnime(before, changes, context, id);
      OfAnimeLast(KeptStaged(before, changes, context), last, id);
      KeptLast(OfAnime(before, id), last, changes, context);
    }
  }

  lemma {:induction false} KeptConcat(a: seq<RemoteChange>, b: seq<RemoteChange>, changes: seq<RemoteChange>, context: MergeContext)
    ensures KeptStaged(a + b, changes, context) == KeptStaged(a, changes, context) + KeptStaged(b, changes, context)
  {
    if b == [] {
      assert a + b == a;
    } else {
      KeptConcat(a, b[..|b| - 1], changes, context);
      assert (a + b)[..|a + b| - 1] == a + b[..|b| - 1];
    }
  }

  lemma {:induction false} KeptIncomingOfAnime(entries: seq<Entry>, changes: seq<RemoteChange>, context: MergeContext, id: AnimeId)
    ensures OfAnime(KeptIncoming(entries, changes, context), id)
      == KeptStaged(ChangesOf(Where(entry => IncomingOf(entry, id), entries)), changes, context)
  {
    var p := (entry: Entry) => IncomingOf(entry, id);
    if entries != [] {
      var before := entries[..|entries| - 1];
      var last := entries[|entries| - 1];
      KeptIncomingOfAnime(before, changes, context, id);
      OfAnimeLast(KeptIncoming(before, changes, context), last.change, id);
      WhereLast(p, entries);
      KeptLast(ChangesOf(Where(p, before)), last.change, changes, context);
      assert ChangesOf(Where(p, before) + [last]) == ChangesOf(Where(p, before)) + [last.change];
    }
  }

  /** With no un-acked edit nothing of the anime stays staged; with one, what stays are the changes after its deletes. */
  lemma {:induction false} KeptAre(list: seq<RemoteChange>, changes: seq<RemoteChange>, context: MergeContext, id: AnimeId, whole: seq<RemoteChange>)
    requires InTime(whole) && list <= whole && OfAnime(changes, id) == whole
    requires forall i | 0 <= i < |whole| :: whole[i].recordId == id
    ensures id !in context.unacked ==> KeptStaged(list, changes, context) == []
    ensures id in context.unacked && !HasDelete(whole[|list|..]) ==> KeptStaged(list, changes, context) == AfterDeletes(list)
    ensures id in context.unacked && HasDelete(whole[|list|..]) ==> KeptStaged(list, changes, context) == []
  {
    if list != [] {
      var before := list[..|list| - 1];
      var last := list[|list| - 1];
      KeptAre(before, changes, context, id, whole);
      assert last == whole[|list| - 1];
      assert whole[|before|..] == [last] + whole[|list|..];
      assert HasDelete(whole[|before|..]) <==> last.changeType == Delete || HasDelete(whole[|list|..]) by {
        assert whole[|before|..][0] == last;
        if HasDelete(whole[|list|..]) {
          var i :| 0 <= i < |whole[|list|..]| && whole[|list|..][i].changeType == Delete;
          assert whole[|before|..][i + 1].changeType == Delete;
        }
      }
      DominatedIsLaterDelete(changes, id, whole, |list| - 1);
    }
  }

  lemma DominatedIsLaterDelete(changes: seq<RemoteChange>, id: AnimeId, whole: seq<RemoteChange>, k: nat)
    requires InTime(whole) && OfAnime(changes, id) == whole && k < |whole|
    requires whole[k].recordId == id
    ensures Dominated(whole[k], changes) <==> whole[k].changeType == Delete || HasDelete(whole[k + 1..])
  {
    if Dominated(whole[k], changes) {
      var i :| 0 <= i < |changes| && changes[i].changeType == Delete && changes[i].recordId == whole[k].recordId
               && changes[i].timestamp >= whole[k].timestamp;
      OfAnimeMembers(changes, id, changes[i]);
      var j :| 0 <= j < |whole| && whole[j] == changes[i];
      if j > k {
        assert whole[k + 1..][j - k - 1] == whole[j];
      }
    }
    if HasDelete(whole[k + 1..]) {
      var j :| 0 <= j < |whole[k + 1..]| && whole[k + 1..][j].changeType == Delete;
      OfAnimeMembers(changes, id, whole[k + 1 + j]);
    } else if whole[k].changeType == Delete {
      OfAnimeMembers(changes, id, whole[k]);
    }
  }

  // ----- One pass -----

  lemma {:induction false} AfterDeletesIsSuffix(changes: seq<RemoteChange>)
    ensures |AfterDeletes(changes)| <= |changes|
    ensures AfterDeletes(changes) == changes[|changes| - |AfterDeletes(changes)|..]
  {
    if changes != [] && changes[|changes| - 1].changeType != Delete {
      AfterDeletesIsSuffix(changes[..|changes| - 1]);
    }
  }

  lemma {:induction false} DirectGuardStaysBelow(row: Option<AnimeRow>, done: seq<RemoteChange>, future: seq<RemoteChange>)
    requires Precedes(done, future) && Newer(row, future)
    ensures Newer(Direct(row, done), future)
  {
    if done != [] {
      DirectGuardStaysBelow(row, done[..|done| - 1], future);
    }
  }

  /**
   * One pass over one record: what it leaves staged, replayed over the row it leaves, is every staged and incoming
   * change applied directly; with no un-acked edit nothing stays staged.
   */
  lemma PassIsDeferredDirect(animes: Animes, staged: seq<RemoteChange>, incoming: seq<RemoteChange>,
                             unacked: set<AnimeId>, id: AnimeId)
    requires AllCoherent(staged) && AllCoherent(incoming)
    requires InTime(OfAnime(staged, id) + OfAnime(incoming, id))
    requires Newer(LocalRow(animes, id), OfAnime(staged, id) + OfAnime(incoming, id))
    ensures var whole := OfAnime(staged, id) + OfAnime(incoming, id);
      var row := LocalRow(animes, id);
      var (animes', staged') := Pass(animes, staged, incoming, unacked);
      if id in unacked
      then LocalRow(animes', id) == (if HasDelete(whole) then None else row) && OfAnime(staged', id) == AfterDeletes(whole)
      else LocalRow(animes', id) == Direct(row, whole) && OfAnime(staged', id) == []
  {
    var entries := PassEntries(staged, incoming);
    var changes := ChangesOf(entries);
    var context := ContextOf(animes, unacked);
    var whole := OfAnime(staged, id) + OfAnime(incoming, id);
    PassEntriesOfAnime(staged, incoming, id);
    PassChangesAreCoherent(staged, incoming);
    forall i | 0 <= i < |changes| && changes[i].recordId == id && changes[i].changeType != Delete
      ensures id !in unacked ==> DecideMerge(changes[i], context) == Apply
    {
      OfAnimeMembers(changes, id, changes[i]);
    }
    if id in unacked {
      BlockedPassDeletes(animes, changes, context, id);
    } else {
      OpenPassIsDirect(animes, changes, context, id);
    }
    PassKeepsStaged(animes, staged, incoming, unacked, id);
  }

  lemma PassChangesAreCoherent(staged: seq<RemoteChange>, incoming: seq<RemoteChange>)
    requires AllCoherent(staged) && AllCoherent(incoming)
    ensures AllCoherent(ChangesOf(PassEntries(staged, incoming)))
  {
    var all := StagedEntries(staged) + IncomingEntries(incoming);
    var entries := PassEntries(staged, incoming);
    forall i | 0 <= i < |entries| ensures Coherent(entries[i].change) {
      ByTimestampMembers(all, entries[i]);
    }
  }

  lemma PassKeepsStaged(animes: Animes, staged: seq<RemoteChange>, incoming: seq<RemoteChange>,
                        unacked: set<AnimeId>, id: AnimeId)
    requires InTime(OfAnime(staged, id) + OfAnime(incoming, id))
    ensures OfAnime(Pass(animes, staged, incoming, unacked).1, id)
      == if id in unacked then AfterDeletes(OfAnime(staged, id) + OfAnime(incoming, id)) else []
  {
    var entries := PassEntries(staged, incoming);
    var changes := ChangesOf(entries);
    var context := ContextOf(animes, unacked);
    var ours, theirs := OfAnime(staged, id), OfAnime(incoming, id);
    PassEntriesOfAnime(staged, incoming, id);
    OfAnimeConcat(KeptStaged(staged, changes, context), KeptIncoming(entries, changes, context), id);
    KeptOfAnime(staged, changes, context, id);
    KeptIncomingOfAnime(entries, changes, context, id);
    InTimeParts(ours, theirs);
    PassIncomingOfAnime(staged, incoming, id);
    KeptConcat(ours, theirs, changes, context);
    forall i | 0 <= i < |ours + theirs| ensures (ours + theirs)[i].recordId == id {
      OfAnimeMembers(changes, id, (ours + theirs)[i]);
    }
    KeptAre(ours + theirs, changes, context, id, ours + theirs);
  }

  // ----- Whole runs -----

  /** Only merge passes, staging, local edits and queue work: no heal, no chosen keep-bridge, no unpairing. */
  predicate MergesOnly(step: Step) { !step.HealSnapshot? && !step.KeepBridgeEdits? && !step.Unpair? }

  /** The remote changes a step delivers. */
  function DeliveredBy(step: Step): seq<RemoteChange> {
    if step.SettleReconcile? || step.StageThenAdvance? then step.changes else []
  }

  /** The changes of one anime a run has to decide: those staged before it, then every one it delivers, in order. */
  function Delivered(staged: seq<RemoteChange>, steps: seq<Timed>, id: AnimeId): seq<RemoteChange> {
    if steps == [] then OfAnime(staged, id)
    else Delivered(staged, steps[..|steps| - 1], id) + OfAnime(DeliveredBy(steps[|steps| - 1].step), id)
  }

  ghost predicate CoherentRun(steps: seq<Timed>) {
    forall k | 0 <= k < |steps| :: MergesOnly(steps[k].step) && AllCoherent(DeliveredBy(steps[k].step))
  }

  /** The columns a step's own edit of the anime writes. */
  function EditedBy(step: Step, id: AnimeId): set<Column> {
    if step.LocalEdit? && step.animeId == id then step.columns.Keys else {}
  }

  /** The columns of the anime the local edits of a run write. */
  function EditedColumns(steps: seq<Timed>, id: AnimeId): set<Column> {
    if steps == [] then {}
    else EditedColumns(steps[..|steps| - 1], id) + EditedBy(steps[|steps| - 1].step, id)
  }

  lemma WritesOnTopAreSimilar(touched: set<Column>, db: Db, timed: Timed, merged: Animes, id: AnimeId)
    requires timed.step.SettleReconcile?
    ensures var step := timed.step;
      var held := HeldAnimes(db.log, step.fates, step.claim);
      var tokened := WriteTokens(merged, map a | a in step.tokens && a in held :: step.tokens[a]);
      Similar(touched, LocalRow(merged, id), LocalRow(WriteRebases(tokened, step.rebases, db.log, step.claim), id))
  {
    var step := timed.step;
    var held := HeldAnimes(db.log, step.fates, step.claim);
    var tokened := WriteTokens(merged, map a | a in step.tokens && a in held :: step.tokens[a]);
    RebasesAreSimilar(touched, tokened, step.rebases, db.log, step.claim, id);
  }

  lemma {:induction false} RebasesAreSimilar(touched: set<Column>, animes: Animes, rebases: seq<Rebase>, t: Table, claim: Claim, id: AnimeId)
    ensures Similar(touched, LocalRow(animes, id), LocalRow(WriteRebases(animes, rebases, t, claim), id))
  {
    if rebases != [] {
      RebasesAreSimilar(touched, animes, rebases[..|rebases| - 1], t, claim, id);
    }
  }

  /** What one step does to one record, up to the columns local edits write. */
  lemma StepOnRecord(touched: set<Column>, db: Db, timed: Timed, id: AnimeId)
    requires ValidStep(db, timed) && MergesOnly(timed.step) && EditedBy(timed.step, id) <= touched
    ensures var db' := Next(db, timed);
      if timed.step.SettleReconcile? || timed.step.Drain?
      then
        var (merged, staged) := Pass(db.animes, db.staged, DeliveredBy(timed.step), Unacked(db.log));
        Similar(touched, LocalRow(merged, id), LocalRow(db'.animes, id)) && db'.staged == staged
      else Similar(touched, LocalRow(db.animes, id), LocalRow(db'.animes, id))
           && db'.staged == db.staged + DeliveredBy(timed.step)
  {
    if timed.step.SettleReconcile? {
      WritesOnTopAreSimilar(touched, db, timed, Pass(db.animes, db.staged, timed.step.changes, Unacked(db.log)).0, id);
    }
  }

  /**
   * The row and what is staged for it stand for everything delivered: replaying the staged changes gives the direct
   * outcome, and what is still to come stays newer than the guard.
   */
  ghost predicate StandsFor(touched: set<Column>, row: Option<AnimeRow>, staged: seq<RemoteChange>, future: seq<RemoteChange>,
                            direct: Option<AnimeRow>)
  {
    && InTime(staged) && Precedes(staged, future)
    && Newer(row, staged) && Newer(row, future) && Similar(touched, Direct(row, staged), direct)
  }

  lemma SuffixIsInTime(row: Option<AnimeRow>, whole: seq<RemoteChange>, kept: seq<RemoteChange>, future: seq<RemoteChange>)
    requires InTime(whole) && Precedes(whole, future) && Newer(row, whole)
    requires |kept| <= |whole| && kept == whole[|whole| - |kept|..]
    ensures InTime(kept) && Precedes(kept, future) && Newer(row, kept)
  {
    assert forall i | 0 <= i < |kept| :: kept[i] == whole[|whole| - |kept| + i];
  }

  lemma NothingIsInTime(row: Option<AnimeRow>, future: seq<RemoteChange>, nothing: seq<RemoteChange>)
    requires nothing == []
    ensures InTime(nothing) && Precedes(nothing, future) && Newer(row, nothing)
  {
  }

  lemma NothingReplayed(row: Option<AnimeRow>, nothing: seq<RemoteChange>)
    requires nothing == []
    ensures Direct(row, nothing) == row
  {
  }

  lemma DeferredStandsFor(touched: set<Column>, row: Option<AnimeRow>, whole: seq<RemoteChange>, future: seq<RemoteChange>, blocked: bool,
                          merged: Option<AnimeRow>, kept: seq<RemoteChange>, row': Option<AnimeRow>)
    requires InTime(whole) && Precedes(whole, future) && Newer(row, whole) && Newer(row, future)
    requires if blocked then merged == (if HasDelete(whole) then None else row) && kept == AfterDeletes(whole)
             else merged == Direct(row, whole) && kept == []
    requires Similar(touched, merged, row')
    ensures StandsFor(touched, row', kept, future, Direct(row, whole))
  {
    hide InTime, Precedes, Direct, HasDelete, AfterDeletes, Get;
    DirectKeepsSimilar(touched, merged, row', kept);
    if blocked {
      DeferredReplay(row, whole);
      AfterDeletesIsSuffix(whole);
      SuffixIsInTime(row, whole, kept, future);
    } else {
      DirectGuardStaysBelow(row, whole, future);
      NothingIsInTime(row', future, kept);
      NothingReplayed(merged, kept);
    }
  }

  lemma PassKeepsOutcome(touched: set<Column>, animes: Animes, staged: seq<RemoteChange>, incoming: seq<RemoteChange>, unacked: set<AnimeId>,
                         id: AnimeId, row': Option<AnimeRow>, future: seq<RemoteChange>)
    requires AllCoherent(staged) && AllCoherent(incoming)
    requires var whole := OfAnime(staged, id) + OfAnime(incoming, id);
      && InTime(whole) && Precedes(whole, future)
      && Newer(LocalRow(animes, id), whole) && Newer(LocalRow(animes, id), future)
    requires Similar(touched, LocalRow(Pass(animes, staged, incoming, unacked).0, id), row')
    ensures StandsFor(touched, row', OfAnime(Pass(animes, staged, incoming, unacked).1, id), future,
                      Direct(LocalRow(animes, id), OfAnime(staged, id) + OfAnime(incoming, id)))
  {
    var row := LocalRow(animes, id);
    var whole := OfAnime(staged, id) + OfAnime(incoming, id);
    var (animes', staged') := Pass(animes, staged, incoming, unacked);
    PassIsDeferredDirect(animes, staged, incoming, unacked, id);
    DeferredStandsFor(touched, row, whole, future, id in unacked, LocalRow(animes', id), OfAnime(staged', id), row');
  }

  /** One step keeps the row and what is staged standing for everything delivered. */
  lemma StepKeepsOutcome(touched: set<Column>, db: Db, timed: Timed, id: AnimeId, future: seq<RemoteChange>)
    requires ValidStep(db, timed) && MergesOnly(timed.step) && EditedBy(timed.step, id) <= touched
    requires AllCoherent(db.staged) && AllCoherent(DeliveredBy(timed.step))
    requires var whole := OfAnime(db.staged, id) + OfAnime(DeliveredBy(timed.step), id);
      && InTime(whole) && Precedes(whole, future)
      && Newer(LocalRow(db.animes, id), whole) && Newer(LocalRow(db.animes, id), future)
    ensures var db' := Next(db, timed);
      && AllCoherent(db'.staged)
      && StandsFor(touched, LocalRow(db'.animes, id), OfAnime(db'.staged, id), future,
           Direct(LocalRow(db.animes, id), OfAnime(db.staged, id) + OfAnime(DeliveredBy(timed.step), id)))
  {
    StepOnRecord(touched, db, timed, id);
    var incoming := DeliveredBy(timed.step);
    var row' := LocalRow(Next(db, timed).animes, id);
    if timed.step.SettleReconcile? || timed.step.Drain? {
      PassKeepsOutcome(touched, db.animes, db.staged, incoming, Unacked(db.log), id, row', future);
      PassStagesCoherent(db.animes, db.staged, incoming, Unacked(db.log));
    } else {
      OfAnimeConcat(db.staged, incoming, id);
      DirectKeepsSimilar(touched, LocalRow(db.animes, id), row', OfAnime(db.staged, id) + OfAnime(incoming, id));
    }
  }

  lemma {:induction false} KeptMembers(list: seq<RemoteChange>, changes: seq<RemoteChange>, context: MergeContext, change: RemoteChange)
    ensures change in KeptStaged(list, changes, context) <==> change in list && KeptDeferred(change, changes, context)
  {
    if list != [] {
      KeptMembers(list[..|list| - 1], changes, context, change);
      assert list == list[..|list| - 1] + [list[|list| - 1]];
    }
  }

  lemma {:induction false} KeptIncomingMembers(entries: seq<Entry>, changes: seq<RemoteChange>, context: MergeContext, change: RemoteChange)
    ensures change in KeptIncoming(entries, changes, context)
       <==> Entry(None, change) in entries && KeptDeferred(change, changes, context)
  {
    if entries != [] {
      KeptIncomingMembers(entries[..|entries| - 1], changes, context, change);
      assert entries == entries[..|entries| - 1] + [entries[|entries| - 1]];
    }
  }

  /** What a pass leaves staged: exactly the staged and incoming changes it defers and keeps. */
  lemma PassStages(animes: Animes, staged: seq<RemoteChange>, incoming: seq<RemoteChange>, unacked: set<AnimeId>, change: RemoteChange)
    ensures var changes := ChangesOf(PassEntries(staged, incoming));
      change in Pass(animes, staged, incoming, unacked).1
      <==> (change in staged || change in incoming) && KeptDeferred(change, changes, ContextOf(animes, unacked))
  {
    var entries := PassEntries(staged, incoming);
    var changes := ChangesOf(entries);
    var context := ContextOf(animes, unacked);
    KeptMembers(staged, changes, context, change);
    KeptIncomingMembers(entries, changes, context, change);
    ByTimestampMembers(StagedEntries(staged) + IncomingEntries(incoming), Entry(None, change));
    if change in incoming {
      var i :| 0 <= i < |incoming| && incoming[i] == change;
      assert IncomingEntries(incoming)[i] == Entry(None, change);
    }
  }

  lemma PassStagesCoherent(animes: Animes, staged: seq<RemoteChange>, incoming: seq<RemoteChange>, unacked: set<AnimeId>)
    requires AllCoherent(staged) && AllCoherent(incoming)
    ensures AllCoherent(Pass(animes, staged, incoming, unacked).1)
  {
    var kept := Pass(animes, staged, incoming, unacked).1;
    forall i | 0 <= i < |kept| ensures Coherent(kept[i]) {
      PassStages(animes, staged, incoming, unacked, kept[i]);
    }
  }

  lemma StandsForExtends(touched: set<Column>, row: Option<AnimeRow>, staged: seq<RemoteChange>, incoming: seq<RemoteChange>,
                         row': Option<AnimeRow>, staged': seq<RemoteChange>, future: seq<RemoteChange>,
                         start: Option<AnimeRow>, delivered: seq<RemoteChange>)
    requires StandsFor(touched, row, staged, incoming + future, Direct(start, delivered))
    requires StandsFor(touched, row', staged', future, Direct(row, staged + incoming))
    ensures StandsFor(touched, row', staged', future, Direct(start, delivered + incoming))
  {
    DirectConcat(row, staged, incoming);
    DirectConcat(start, delivered, incoming);
    DirectKeepsSimilar(touched, Direct(row, staged), Direct(start, delivered), incoming);
  }

  /**
   * A run delivers the anime's changes in time: each delivery in time order with no delete at the time of another change,
   * and newer as a whole than everything before it. Changes of one delivery may share their time.
   */
  ghost predicate DeliversInTime(staged: seq<RemoteChange>, steps: seq<Timed>, id: AnimeId) {
    if steps == [] then InTime(OfAnime(staged, id))
    else
      var before, incoming := steps[..|steps| - 1], OfAnime(DeliveredBy(steps[|steps| - 1].step), id);
      DeliversInTime(staged, before, id) && InTime(incoming) && Precedes(Delivered(staged, before, id), incoming)
  }

  lemma {:induction false} RunKeepsOutcome(touched: set<Column>, db: Db, steps: seq<Timed>, id: AnimeId, future: seq<RemoteChange>)
    requires ValidRun(db, steps) && CoherentRun(steps) && AllCoherent(db.staged) && EditedColumns(steps, id) <= touched
    requires DeliversInTime(db.staged, steps, id) && Precedes(Delivered(db.staged, steps, id), future)
    requires Newer(LocalRow(db.animes, id), Delivered(db.staged, steps, id)) && Newer(LocalRow(db.animes, id), future)
    ensures var end := Run(db, steps);
      && AllCoherent(end.staged)
      && StandsFor(touched, LocalRow(end.animes, id), OfAnime(end.staged, id), future,
                   Direct(LocalRow(db.animes, id), Delivered(db.staged, steps, id)))
  {
    if steps != [] {
      var before := steps[..|steps| - 1];
      var last := steps[|steps| - 1];
      var incoming := OfAnime(DeliveredBy(last.step), id);
      ValidPrefix(db, steps);
      var delivered := Delivered(db.staged, before, id);
      PrecedesParts(delivered, incoming, future);
      NewerParts(LocalRow(db.animes, id), delivered, incoming);
      NewerParts(LocalRow(db.animes, id), incoming, future);
      RunKeepsOutcome(touched, db, before, id, incoming + future);
      var mid := Run(db, before);
      assert MergesOnly(steps[|steps| - 1].step) && AllCoherent(DeliveredBy(steps[|steps| - 1].step));
      LastStepStandsFor(touched, db, mid, last, id, future, delivered);
      assert Run(db, steps) == Next(mid, last);
    } else {
      assert OfAnime(db.staged, id) == Delivered(db.staged, steps, id);
    }
  }

  lemma LastStepStandsFor(touched: set<Column>, db: Db, mid: Db, last: Timed, id: AnimeId, future: seq<RemoteChange>, delivered: seq<RemoteChange>)
    requires ValidStep(mid, last) && MergesOnly(last.step) && EditedBy(last.step, id) <= touched
    requires AllCoherent(mid.staged) && AllCoherent(DeliveredBy(last.step))
    requires InTime(OfAnime(DeliveredBy(last.step), id)) && Precedes(OfAnime(DeliveredBy(last.step), id), future)
    requires StandsFor(touched, LocalRow(mid.animes, id), OfAnime(mid.staged, id), OfAnime(DeliveredBy(last.step), id) + future,
                       Direct(LocalRow(db.animes, id), delivered))
    ensures AllCoherent(Next(mid, last).staged)
    ensures StandsFor(touched, LocalRow(Next(mid, last).animes, id), OfAnime(Next(mid, last).staged, id), future,
              Direct(LocalRow(db.animes, id), delivered + OfAnime(DeliveredBy(last.step), id)))
  {
    var staged, incoming := OfAnime(mid.staged, id), OfAnime(DeliveredBy(last.step), id);
    PrecedesParts(staged, incoming, future);
    InTimeParts(staged, incoming);
    NewerParts(LocalRow(mid.animes, id), staged, incoming);
    NewerParts(LocalRow(mid.animes, id), incoming, future);
    StepKeepsOutcome(touched, mid, last, id, future);
    StandsForExtends(touched, LocalRow(mid.animes, id), staged, incoming, LocalRow(Next(mid, last).animes, id),
      OfAnime(Next(mid, last).staged, id), future, LocalRow(db.animes, id), delivered);
  }

  /**
   * Deferral does not change the outcome. Let an anime's changes be delivered in time, above its starting guard; changes
   * of one delivery may share their time, unless one of them is a delete. After any run of passes, stagings, local edits and queue steps that leaves none of them staged, its row
   * exists or not, carries the guard and holds every column the run's own edits of it do not write, exactly as if
   * every change, deletes included, had been applied directly in order.
   */
  lemma DeferralKeepsTheOutcome(db: Db, steps: seq<Timed>, id: AnimeId)
    requires ValidRun(db, steps) && CoherentRun(steps) && AllCoherent(db.staged)
    requires DeliversInTime(db.staged, steps, id) && Newer(LocalRow(db.animes, id), Delivered(db.staged, steps, id))
    requires OfAnime(Run(db, steps).staged, id) == []
    ensures Similar(EditedColumns(steps, id), LocalRow(Run(db, steps).animes, id),
                    Direct(LocalRow(db.animes, id), Delivered(db.staged, steps, id)))
  {
    RunKeepsOutcome(EditedColumns(steps, id), db, steps, id, []);
  }

  lemma StepStages(db: Db, timed: Timed)
    requires timed.step.SettleReconcile? || timed.step.Drain?
    ensures Next(db, timed).staged == Pass(db.animes, db.staged, DeliveredBy(timed.step), Unacked(db.log)).1
  {
  }

  /** A run whose last pass finds no un-acked edit of the anime leaves none of its changes staged. */
  lemma {:induction false} OpenPassLeavesNothingStaged(db: Db, steps: seq<Timed>, last: Timed, id: AnimeId)
    requires ValidRun(db, steps) && CoherentRun(steps) && AllCoherent(db.staged)
    requires last.step.SettleReconcile? || last.step.Drain?
    requires DeliversInTime(db.staged, steps + [last], id)
    requires Newer(LocalRow(db.animes, id), Delivered(db.staged, steps + [last], id))
    requires id !in Unacked(Run(db, steps).log)
    ensures OfAnime(Run(db, steps + [last]).staged, id) == []
  {
    var mid := Run(db, steps);
    var incoming := OfAnime(DeliveredBy(last.step), id);
    RunExtends(db, steps, last);
    assert (steps + [last])[..|steps|] == steps;
    NewerParts(LocalRow(db.animes, id), Delivered(db.staged, steps, id), incoming);
    RunKeepsOutcome(EditedColumns(steps, id), db, steps, id, incoming);
    InTimeParts(OfAnime(mid.staged, id), incoming);
    PassKeepsStaged(mid.animes, mid.staged, DeliveredBy(last.step), Unacked(mid.log), id);
    StepStages(mid, last);
  }
}
