/** Delivering remote changes again: when a second pass over changes already passed leaves every row alone. */
module Redelivery {
  import opened Basics
  import opened AnimeTable
  import opened FieldMerge
  import opened MergeBoundary
  import opened MergeOrder
  import opened MergeOutcome
  import opened CursorSafety
  import opened SnapshotHeal

  /** One change under the guard the pass preloaded: deletes always win, stale changes are dropped. */
  function FoldOne(row: Option<AnimeRow>, change: RemoteChange, guard: Option<int>): Option<AnimeRow> {
    if change.changeType == Delete then None
    else if IsStale(change.timestamp, guard) then row
    else DirectOne(row, change)
  }

  function Fold(row: Option<AnimeRow>, changes: seq<RemoteChange>, guard: Option<int>): Option<AnimeRow> {
    if changes == [] then row else FoldOne(Fold(row, changes[..|changes| - 1], guard), changes[|changes| - 1], guard)
  }

  function RowGuard(row: Option<AnimeRow>): Option<int> { if row.Some? then row.value.guard else None }

  /** A pass over an anime with no un-acked edit is the fold of its changes under its preloaded guard. */
  lemma {:induction false} OpenPassIsFold(before: Animes, changes: seq<RemoteChange>, unacked: set<AnimeId>, id: AnimeId)
    requires AllCoherent(changes) && id !in unacked
    ensures LocalRow(ApplyChanges(before, changes, ContextOf(before, unacked)), id)
      == Fold(LocalRow(before, id), OfAnime(changes, id), RowGuard(LocalRow(before, id)))
  {
    if changes != [] {
      var front := changes[..|changes| - 1];
      var last := changes[|changes| - 1];
      OpenPassIsFold(before, front, unacked, id);
      if last.changeType != Delete {
        AcceptedOnRow(ApplyChanges(before, front, ContextOf(before, unacked)), last, id);
      }
      assert changes == front + [last];
      OfAnimeLast(front, last, id);
      assert (OfAnime(front, id) + [last])[..|OfAnime(front, id)|] == OfAnime(front, id);
    }
  }

  ghost predicate SortedChanges(changes: seq<RemoteChange>) {
    forall i, j | 0 <= i < j < |changes| :: changes[i].timestamp <= changes[j].timestamp
  }

  /** The row already answers for the change: nothing to write, an older time, or a list no field of which is known. */
  ghost predicate Settled(row: Option<AnimeRow>, change: RemoteChange) {
    || change.snapshot.None?
    || (row.Some? && change.changeType != Delete
        && (IsStale(change.timestamp, row.value.guard) || (change.changeType == Update && change.changedFields == [])))
  }

  /**
   * What a fold from `row` over `changes` ends on. On a row: every folded create or update is settled, the guard has
   * not moved back, it is the old one or the time of a change, and there is one if a delete came. On none, without
   * a delete: there was no row and nothing to write one from.
   */
  ghost predicate FoldOutcome(row: Option<AnimeRow>, changes: seq<RemoteChange>, end: Option<AnimeRow>) {
    if end.Some?
    then
      && (forall i | 0 <= i < |changes| && changes[i].changeType != Delete :: Settled(end, changes[i]))
      && (RowGuard(row).Some? ==> end.value.guard.Some? && RowGuard(row).value <= end.value.guard.value)
      && (end.value.guard == RowGuard(row)
          || (end.value.guard.Some? && exists i | 0 <= i < |changes| :: changes[i].timestamp == end.value.guard.value))
      && (HasDelete(changes) ==> end.value.guard.Some?)
    else
      HasDelete(changes) || (row.None? && forall i | 0 <= i < |changes| :: changes[i].snapshot.None?)
  }

  lemma FoldOutcomeStep(row: Option<AnimeRow>, front: seq<RemoteChange>, end: Option<AnimeRow>, last: RemoteChange)
    requires SortedChanges(front + [last]) && FoldOutcome(row, front, end)
    ensures FoldOutcome(row, front + [last], FoldOne(end, last, RowGuard(row)))
  {
    var all := front + [last];
    HasDeleteLast(front, last);
    assert all[|front|] == last;
    assert forall i | 0 <= i < |front| :: all[i] == front[i] && front[i].timestamp <= last.timestamp;
    var after := FoldOne(end, last, RowGuard(row));
    if after.Some? && after != end {
      assert all[|front|].timestamp == after.value.guard.value;
    } else if after.Some? && end.value.guard != RowGuard(row) {
      var i :| 0 <= i < |front| && front[i].timestamp == end.value.guard.value;
      assert all[i].timestamp == after.value.guard.value;
    }
  }

  lemma {:induction false} FoldSettles(row: Option<AnimeRow>, changes: seq<RemoteChange>)
    requires SortedChanges(changes)
    ensures FoldOutcome(row, changes, Fold(row, changes, RowGuard(row)))
  {
    if changes != [] {
      var front, last := changes[..|changes| - 1], changes[|changes| - 1];
      FoldSettles(row, front);
      assert changes == front + [last];
      FoldOutcomeStep(row, front, Fold(row, front, RowGuard(row)), last);
    }
  }

  lemma HasDeleteLast(front: seq<RemoteChange>, last: RemoteChange)
    ensures HasDelete(front + [last]) <==> HasDelete(front) || last.changeType == Delete
  {
    var all := front + [last];
    assert last.changeType == Delete ==> all[|front|].changeType == Delete;
    if HasDelete(front) {
      var i :| 0 <= i < |front| && front[i].changeType == Delete;
      assert all[i].changeType == Delete;
    }
  }

  /** A change after the last delete would write a row. */
  predicate Recreates(changes: seq<RemoteChange>) {
    exists i | 0 <= i < |AfterDeletes(changes)| :: AfterDeletes(changes)[i].snapshot.Some?
  }

  /** What redelivering leaves of one row: nothing is written unless a delete hits it, or an absent row comes back. */
  predicate StaysPut(row: Option<AnimeRow>, changes: seq<RemoteChange>, blocked: bool) {
    if row.Some? then !HasDelete(changes) else blocked || !Recreates(changes)
  }

  lemma {:induction false} SettledFoldKeepsRow(row: Option<AnimeRow>, changes: seq<RemoteChange>)
    requires row.Some? && !HasDelete(changes)
    requires forall i | 0 <= i < |changes| :: changes[i].changeType != Delete ==> Settled(row, changes[i])
    ensures Fold(row, changes, RowGuard(row)) == row
  {
    if changes != [] {
      var front, last := changes[..|changes| - 1], changes[|changes| - 1];
      assert changes == front + [last];
      HasDeleteLast(front, last);
      SettledFoldKeepsRow(row, front);
    }
  }

  /** After a delete, a fold under a guard ends on no row, or on one newer than that guard. */
  lemma {:induction false} DeletedFoldMovesOn(row: Option<AnimeRow>, changes: seq<RemoteChange>, guard: int)
    requires HasDelete(changes)
    ensures var end := Fold(row, changes, Some(guard));
      end.Some? ==> end.value.guard.Some? && end.value.guard.value > guard
  {
    var front, last := changes[..|changes| - 1], changes[|changes| - 1];
    assert changes == front + [last];
    HasDeleteLast(front, last);
    if last.changeType != Delete {
      DeletedFoldMovesOn(row, front, guard);
    }
  }

  /** An absent row, with no guard to be stale against, comes back exactly when a change after the last delete has a snapshot. */
  lemma {:induction false} AbsentRowComesBack(changes: seq<RemoteChange>)
    ensures Fold(None, changes, None).Some? <==> Recreates(changes)
  {
    if changes != [] {
      var front, last := changes[..|changes| - 1], changes[|changes| - 1];
      AbsentRowComesBack(front);
      if last.changeType != Delete {
        var after := AfterDeletes(changes);
        assert after == AfterDeletes(front) + [last];
        assert last.snapshot.Some? ==> after[|after| - 1].snapshot.Some?;
        if Recreates(front) {
          var i :| 0 <= i < |AfterDeletes(front)| && AfterDeletes(front)[i].snapshot.Some?;
          assert after[i].snapshot.Some?;
        }
      }
    }
  }

  /** One open record, folded once over `first` and again over changes out of it. */
  lemma SecondFold(row: Option<AnimeRow>, first: seq<RemoteChange>, again: seq<RemoteChange>)
    requires SortedChanges(first)
    requires forall change | change in again :: change in first
    ensures var end := Fold(row, first, RowGuard(row));
      Fold(end, again, RowGuard(end)) == end <==> StaysPut(end, again, false)
  {
    var end := Fold(row, first, RowGuard(row));
    FoldSettles(row, first);
    if end.None? {
      AbsentRowComesBack(again);
    } else if HasDelete(again) {
      var i :| 0 <= i < |again| && again[i].changeType == Delete;
      assert again[i] in first;
      DeletedFoldMovesOn(end, again, end.value.guard.value);
    } else {
      assert forall i | 0 <= i < |again| :: again[i] in first;
      SettledFoldKeepsRow(end, again);
    }
  }

  lemma {:induction false} OfAnimeSorted(changes: seq<RemoteChange>, id: AnimeId)
    requires SortedChanges(changes)
    ensures SortedChanges(OfAnime(changes, id))
  {
    if changes != [] {
      var front := changes[..|changes| - 1];
      OfAnimeSorted(front, id);
      forall i | 0 <= i < |OfAnime(front, id)|
        ensures OfAnime(front, id)[i].timestamp <= changes[|changes| - 1].timestamp
      {
        OfAnimeMembers(front, id, OfAnime(front, id)[i]);
      }
    }
  }

  /** The changes a pass decides, in pass order. */
  function PassChanges(staged: seq<RemoteChange>, incoming: seq<RemoteChange>): seq<RemoteChange> {
    ChangesOf(PassEntries(staged, incoming))
  }

  lemma PassChangesSorted(staged: seq<RemoteChange>, incoming: seq<RemoteChange>)
    ensures SortedChanges(PassChanges(staged, incoming))
  {
    ByTimestampSorts(StagedEntries(staged) + IncomingEntries(incoming));
  }

  predicate AllOut(again: seq<RemoteChange>, staged: seq<RemoteChange>, incoming: seq<RemoteChange>) {
    forall i | 0 <= i < |again| :: again[i] in staged || again[i] in incoming
  }

  /** What one pass leaves of one row, whether or not it has an un-acked edit. */
  lemma PassOnRow(before: Animes, staged: seq<RemoteChange>, incoming: seq<RemoteChange>, unacked: set<AnimeId>, id: AnimeId)
    requires AllCoherent(staged) && AllCoherent(incoming)
    ensures var mine := OfAnime(PassChanges(staged, incoming), id);
      var row := LocalRow(before, id);
      LocalRow(Pass(before, staged, incoming, unacked).0, id)
      == if id in unacked then (if HasDelete(mine) then None else row) else Fold(row, mine, RowGuard(row))
  {
    var changes := PassChanges(staged, incoming);
    forall i | 0 <= i < |changes| ensures Coherent(changes[i]) {
      PassChangesAre(staged, incoming, changes[i]);
    }
    if id in unacked {
      BlockedPassDeletes(before, changes, ContextOf(before, unacked), id);
    } else {
      OpenPassIsFold(before, changes, unacked, id);
    }
  }

  lemma AgainIsOut(animes: Animes, staged: seq<RemoteChange>, incoming: seq<RemoteChange>, unacked: set<AnimeId>,
                   again: seq<RemoteChange>, id: AnimeId, change: RemoteChange)
    requires AllOut(again, staged, incoming)
    ensures var kept := Pass(animes, staged, incoming, unacked).1;
      change in OfAnime(PassChanges(kept, again), id) ==> change in OfAnime(PassChanges(staged, incoming), id)
  {
    var kept := Pass(animes, staged, incoming, unacked).1;
    OfAnimeMembers(PassChanges(kept, again), id, change);
    OfAnimeMembers(PassChanges(staged, incoming), id, change);
    PassChangesAre(kept, again, change);
    PassChangesAre(staged, incoming, change);
    PassStages(animes, staged, incoming, unacked, change);
  }

  /** One row under a second pass over changes of the first. */
  lemma SecondPassOnRow(animes: Animes, staged: seq<RemoteChange>, incoming: seq<RemoteChange>, unacked: set<AnimeId>,
                        again: seq<RemoteChange>, id: AnimeId)
    requires AllCoherent(staged) && AllCoherent(incoming) && AllOut(again, staged, incoming)
    ensures var (first, kept) := Pass(animes, staged, incoming, unacked);
      LocalRow(Pass(first, kept, again, unacked).0, id) == LocalRow(first, id)
      <==> StaysPut(LocalRow(first, id), OfAnime(PassChanges(kept, again), id), id in unacked)
  {
    var (first, kept) := Pass(animes, staged, incoming, unacked);
    PassStagesCoherent(animes, staged, incoming, unacked);
    assert AllCoherent(again) by {
      forall i | 0 <= i < |again| ensures Coherent(again[i]) { assert again[i] in staged || again[i] in incoming; }
    }
    PassOnRow(animes, staged, incoming, unacked, id);
    PassOnRow(first, kept, again, unacked, id);
    if id !in unacked {
      var mine := OfAnime(PassChanges(staged, incoming), id);
      var mineAgain := OfAnime(PassChanges(kept, again), id);
      PassChangesSorted(staged, incoming);
      OfAnimeSorted(PassChanges(staged, incoming), id);
      forall change | change in mineAgain ensures change in mine {
        AgainIsOut(animes, staged, incoming, unacked, again, id, change);
      }
      SecondFold(LocalRow(animes, id), mine, mineAgain);
    }
  }

  /**
   * Redelivery: after a pass, a second pass with the same un-acked edits over any of the same changes, in any order
   * and any number of times, leaves every row alone exactly when, anime by anime, no delete comes again for a row
   * that is there, and no change past the last delete would bring back an open row that is not.
   */
  lemma RedeliveryIsANoOpExactlyWhen(animes: Animes, staged: seq<RemoteChange>, incoming: seq<RemoteChange>,
                                     unacked: set<AnimeId>, again: seq<RemoteChange>)
    requires AllCoherent(staged) && AllCoherent(incoming) && AllOut(again, staged, incoming)
    ensures var (first, kept) := Pass(animes, staged, incoming, unacked);
      Pass(first, kept, again, unacked).0 == first
      <==> forall id :: StaysPut(LocalRow(first, id), OfAnime(PassChanges(kept, again), id), id in unacked)
  {
    var (first, kept) := Pass(animes, staged, incoming, unacked);
    var second := Pass(first, kept, again, unacked).0;
    forall id ensures LocalRow(second, id) == LocalRow(first, id)
      <==> StaysPut(LocalRow(first, id), OfAnime(PassChanges(kept, again), id), id in unacked)
    {
      SecondPassOnRow(animes, staged, incoming, unacked, again, id);
    }
    assert second == first <==> forall id :: LocalRow(second, id) == LocalRow(first, id) by {
      if forall id :: LocalRow(second, id) == LocalRow(first, id) {
        assert forall id :: id in second <==> LocalRow(second, id).Some?;
        assert forall id :: id in first <==> LocalRow(first, id).Some?;
        assert second.Keys == first.Keys;
        assert forall id | id in first :: LocalRow(second, id).value == LocalRow(first, id).value;
      }
    }
  }

  predicate DeleteFree(changes: seq<RemoteChange>) { forall i | 0 <= i < |changes| :: changes[i].changeType != Delete }

  lemma {:induction false} NoDeletesKeepsAll(changes: seq<RemoteChange>)
    requires !HasDelete(changes)
    ensures AfterDeletes(changes) == changes
  {
    if changes != [] {
      var front, last := changes[..|changes| - 1], changes[|changes| - 1];
      assert changes == front + [last];
      HasDeleteLast(front, last);
      NoDeletesKeepsAll(front);
    }
  }

  /** A pass of updates and creates finds nothing to delete and nothing to bring back when they come again. */
  lemma DeleteFreeRowStays(animes: Animes, staged: seq<RemoteChange>, incoming: seq<RemoteChange>, unacked: set<AnimeId>,
                           again: seq<RemoteChange>, id: AnimeId)
    requires AllCoherent(staged) && AllCoherent(incoming) && AllOut(again, staged, incoming)
    requires DeleteFree(staged) && DeleteFree(incoming)
    ensures var (first, kept) := Pass(animes, staged, incoming, unacked);
      StaysPut(LocalRow(first, id), OfAnime(PassChanges(kept, again), id), id in unacked)
  {
    hide Pass, Fold, OfAnime, PassEntries, ChangesOf, LocalRow, AllCoherent, AllOut, SortedChanges;
    var kept := Pass(animes, staged, incoming, unacked).1;
    var mine, mineAgain := OfAnime(PassChanges(staged, incoming), id), OfAnime(PassChanges(kept, again), id);
    forall change ensures change in mine ==> change.changeType != Delete
                  ensures change in mineAgain ==> change in mine
    {
      OfAnimeMembers(PassChanges(staged, incoming), id, change);
      PassChangesAre(staged, incoming, change);
      AgainIsOut(animes, staged, incoming, unacked, again, id, change);
    }
    assert forall i | 0 <= i < |mine| :: mine[i] in mine;
    assert forall i | 0 <= i < |mineAgain| :: mineAgain[i] in mineAgain;
    NoDeletesKeepsAll(mineAgain);
    PassOnRow(animes, staged, incoming, unacked, id);
    PassChangesSorted(staged, incoming);
    OfAnimeSorted(PassChanges(staged, incoming), id);
    FoldSettles(LocalRow(animes, id), mine);
  }

  /** Without deletes, redelivering any of a pass's changes never writes a row. */
  lemma DeleteFreeRedeliveryIsANoOp(animes: Animes, staged: seq<RemoteChange>, incoming: seq<RemoteChange>,
                                    unacked: set<AnimeId>, again: seq<RemoteChange>)
    requires AllCoherent(staged) && AllCoherent(incoming) && AllOut(again, staged, incoming)
    requires DeleteFree(staged) && DeleteFree(incoming)
    ensures var (first, kept) := Pass(animes, staged, incoming, unacked);
      Pass(first, kept, again, unacked).0 == first
  {
    var (first, kept) := Pass(animes, staged, incoming, unacked);
    forall id ensures StaysPut(LocalRow(first, id), OfAnime(PassChanges(kept, again), id), id in unacked) {
      DeleteFreeRowStays(animes, staged, incoming, unacked, again, id);
    }
    RedeliveryIsANoOpExactlyWhen(animes, staged, incoming, unacked, again);
  }

  /** Within one pass a row that stays keeps its guard or moves it forward. */
  lemma GuardsOnlyGrow(animes: Animes, staged: seq<RemoteChange>, incoming: seq<RemoteChange>, unacked: set<AnimeId>,
                       id: AnimeId)
    requires AllCoherent(staged) && AllCoherent(incoming)
    requires id in animes && animes[id].guard.Some?
    ensures var after := Pass(animes, staged, incoming, unacked).0;
      id in after ==> after[id].guard.Some? && animes[id].guard.value <= after[id].guard.value
  {
    PassOnRow(animes, staged, incoming, unacked, id);
    PassChangesSorted(staged, incoming);
    OfAnimeSorted(PassChanges(staged, incoming), id);
    FoldSettles(LocalRow(animes, id), OfAnime(PassChanges(staged, incoming), id));
  }

  /** With a delete it can fail: [delete at 5, update at 10] leaves a row, and delivering it again drops that row. */
  lemma RedeliveredDeleteDropsTheRow(id: AnimeId, fields: seq<FieldName>, columns: Columns)
    ensures var batch := DeleteThenUpdate(id, fields, columns);
      var first := Pass(map[], [], batch, {}).0;
      id in first && id !in Pass(first, [], batch, {}).0
  {
    var batch := DeleteThenUpdate(id, fields, columns);
    PassOfTwo(map[], batch[0], batch[1], id);
    PassOfTwo(Pass(map[], [], batch, {}).0, batch[0], batch[1], id);
  }

  function DeleteThenUpdate(id: AnimeId, fields: seq<FieldName>, columns: Columns): seq<RemoteChange> {
    [RemoteChange(id, Delete, [], None, 5), RemoteChange(id, Update, fields, Some(Anime(id, columns)), 10)]
  }

  /** Two changes of one answer already in time order, ties included, are decided in that order. */
  lemma TwoStayInOrder(a: RemoteChange, b: RemoteChange)
    requires a.timestamp <= b.timestamp
    ensures PassChanges([], [a, b]) == [a, b]
  {
    var none, batch: seq<RemoteChange> := [], [a, b];
    var all := StagedEntries(none) + IncomingEntries(batch);
    assert all == [Entry(None, a), Entry(None, b)];
    SortedStays(all);
    ChangesOfTagged(none, batch);
    assert none + batch == batch;
  }

  lemma PassOfTwo(animes: Animes, a: RemoteChange, b: RemoteChange, id: AnimeId)
    requires a.recordId == id && b.recordId == id && a.timestamp <= b.timestamp && Coherent(a) && Coherent(b)
    ensures var row := LocalRow(animes, id);
      LocalRow(Pass(animes, [], [a, b], {}).0, id) == FoldOne(FoldOne(row, a, RowGuard(row)), b, RowGuard(row))
  {
    hide Pass, PassChanges, OfAnime, Fold, FoldOne;
    TwoStayInOrder(a, b);
    OfAnimeTwo(a, b, id);
    PassOnRow(animes, [], [a, b], {}, id);
    FoldTwo(LocalRow(animes, id), a, b, RowGuard(LocalRow(animes, id)));
  }

  lemma OfAnimeTwo(a: RemoteChange, b: RemoteChange, id: AnimeId)
    requires a.recordId == id && b.recordId == id
    ensures OfAnime([a, b], id) == [a, b]
  {
    OfAnimeConcat([a], [b], id);
    OfAnimeOne(a, [], id);
    OfAnimeOne(b, [], id);
    assert [a] + [] == [a] && [b] + [] == [b] && [a] + [b] == [a, b];
  }

  lemma FoldTwo(row: Option<AnimeRow>, a: RemoteChange, b: RemoteChange, guard: Option<int>)
    ensures Fold(row, [a, b], guard) == FoldOne(FoldOne(row, a, guard), b, guard)
  {
    var one, both := [a], [a, b];
    assert both[..|both| - 1] == one;
    assert one[..|one| - 1] == [];
    assert Fold(row, one, guard) == FoldOne(row, a, guard);
  }
}
