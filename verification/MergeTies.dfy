/** What a shared timestamp can cost: the two ties of one anime under which deferring, or delivering apart, changes the outcome. */
module MergeTies {
  import opened Basics
  import opened AnimeTable
  import opened FieldMerge
  import opened MergeBoundary
  import opened MergeOrder
  import opened MergeOutcome
  import opened Redelivery
  import opened SnapshotHeal

  /** A delete and an update of one anime at one time, in this order. */
  function DeleteAndUpdateAtOnce(id: AnimeId, fields: seq<FieldName>, columns: Columns): seq<RemoteChange> {
    [RemoteChange(id, Delete, [], None, 5), RemoteChange(id, Update, fields, Some(Anime(id, columns)), 5)]
  }

  /**
   * A tie with a delete. Decided directly, the update comes after the delete and the anime is there. Deferred, under an
   * edit the bridge has not confirmed, the update is dropped as dominated and nothing is left to bring the anime back.
   */
  lemma ATiedDeleteDropsTheDeferredChange(id: AnimeId, fields: seq<FieldName>, columns: Columns)
    ensures var batch := DeleteAndUpdateAtOnce(id, fields, columns);
      && Direct(None, batch).Some? && id in Pass(map[], [], batch, {}).0
      && id !in Pass(map[], [], batch, {id}).0 && Pass(map[], [], batch, {id}).1 == []
  {
    var batch, none: seq<RemoteChange> := DeleteAndUpdateAtOnce(id, fields, columns), [];
    var delete, update := batch[0], batch[1];
    assert batch == [delete, update];
    PassOfTwo(map[], delete, update, id);
    DirectTwo(delete, update);
    PassOnRow(map[], none, batch, {id}, id);
    TwoStayInOrder(delete, update);
    var changes := PassChanges(none, batch);
    assert changes[0].changeType == Delete && Dominated(update, changes);
    var kept := Pass(map[], none, batch, {id}).1;
    assert kept != [] ==> kept[0] in kept;
    forall change ensures change !in kept {
      PassStages(map[], none, batch, {id}, change);
    }
  }

  lemma DirectTwo(a: RemoteChange, b: RemoteChange)
    ensures Direct(None, [a, b]) == DirectOne(DirectOne(None, a), b)
  {
    var one, both := [a], [a, b];
    assert both[..|both| - 1] == one && one[..0] == [];
    assert Direct(None, one) == DirectOne(None, a);
  }

  lemma PassOfOne(animes: Animes, change: RemoteChange, id: AnimeId)
    requires change.recordId == id && Coherent(change)
    ensures var row := LocalRow(animes, id);
      LocalRow(Pass(animes, [], [change], {}).0, id) == FoldOne(row, change, RowGuard(row))
  {
    var none, one: seq<RemoteChange> := [], [change];
    var row := LocalRow(animes, id);
    PassOnRow(animes, none, one, {}, id);
    SortedStays(StagedEntries(none) + IncomingEntries(one));
    ChangesOfTagged(none, one);
    assert none + one == one && one[..0] == none;
    assert OfAnime(one, id) == one;
    assert Fold(row, one, RowGuard(row)) == FoldOne(row, change, RowGuard(row));
  }

  /** An anime created with one status, and restated with another at the same time. */
  function Created(id: AnimeId, status: Value): RemoteChange {
    RemoteChange(id, Create, [], Some(Anime(id, map[Estado := status])), 5)
  }

  function Restated(id: AnimeId, status: Value): RemoteChange {
    RemoteChange(id, Update, [Known(Estado)], Some(Anime(id, map[Estado := status])), 5)
  }

  /** A tie across two answers. In one answer the later change is applied too; in the next one it reads as stale. */
  lemma ATieAcrossAnswersIsStale(id: AnimeId, first: Value, second: Value)
    ensures var created, restated := Created(id, first), Restated(id, second);
      var together := Pass(map[], [], [created, restated], {}).0;
      var apart := Pass(Pass(map[], [], [created], {}).0, [], [restated], {}).0;
      && id in together && Get(together[id].columns, Estado) == second
      && LocalRow(together, id) == Direct(None, [created, restated])
      && id in apart && Get(apart[id].columns, Estado) == first
  {
    var created, restated := Created(id, first), Restated(id, second);
    hide Pass;
    PassOfTwo(map[], created, restated, id);
    PassOfOne(map[], created, id);
    PassOfOne(Pass(map[], [], [created], {}).0, restated, id);
    DirectTwo(created, restated);
    PartialColumnsAre(restated.changedFields, restated.snapshot.value, Estado);
  }
}
