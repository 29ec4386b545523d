/** What the merge boundary and the heal owe an anime whose edit the bridge has not confirmed. */
module PassSafety {
  import opened Basics
  import opened OutboxTable
  import opened AnimeTable
  import opened MergeBoundary
  import opened MergeOrder
  import opened MergeOutcome
  import opened CursorSafety
  import opened SnapshotHeal
  import opened Protocol

  /** An edit of the anime waits to be sent or is being sent; a rating is no edit. */
  predicate HasUnsentEdit(t: Table, animeId: AnimeId) {
    exists id | id in t ::
      && t[id].animeId == animeId && t[id].operation == "update"
      && (t[id].status == Pending || t[id].status == Processing)
  }

  predicate DeletesAfter(changes: seq<RemoteChange>, animeId: AnimeId, timestamp: int) {
    exists i | 0 <= i < |changes| ::
      changes[i].changeType == Delete && changes[i].recordId == animeId && changes[i].timestamp >= timestamp
  }

  predicate Deletes(changes: seq<RemoteChange>, animeId: AnimeId) {
    exists i | 0 <= i < |changes| :: changes[i].changeType == Delete && changes[i].recordId == animeId
  }

  /**
   * While an edit of the anime is unsent its row is only ever deleted, never written; what no delete of the same pass
   * covers stays staged for it, and nothing is staged for any other anime.
   */
  ghost predicate UnsentEditsAreSafe(t: Table, before: Animes, after: Animes, changes: seq<RemoteChange>,
                                     kept: seq<RemoteChange>)
  {
    && (forall animeId | HasUnsentEdit(t, animeId) ::
          LocalRow(after, animeId) == if Deletes(changes, animeId) then None else LocalRow(before, animeId))
    && (forall change | change in changes && change.changeType != Delete && HasUnsentEdit(t, change.recordId)
                        && !DeletesAfter(changes, change.recordId, change.timestamp) :: change in kept)
    && forall change | change in kept :: change in changes && HasUnsentEdit(t, change.recordId)
  }

  lemma UnackedAre(t: Table, animeId: AnimeId)
    ensures animeId in Unacked(t) <==> HasUnsentEdit(t, animeId)
  {
  }

  lemma PassDeletes(staged: seq<RemoteChange>, incoming: seq<RemoteChange>, animeId: AnimeId)
    ensures HasDelete(OfAnime(ChangesOf(PassEntries(staged, incoming)), animeId)) <==> Deletes(staged + incoming, animeId)
  {
    var changes, all := ChangesOf(PassEntries(staged, incoming)), staged + incoming;
    var mine := OfAnime(changes, animeId);
    if HasDelete(mine) {
      var i :| 0 <= i < |mine| && mine[i].changeType == Delete;
      OfAnimeMembers(changes, animeId, mine[i]);
      PassChangesAre(staged, incoming, mine[i]);
      assert mine[i] in all;
    }
    if Deletes(all, animeId) {
      var i :| 0 <= i < |all| && all[i].changeType == Delete && all[i].recordId == animeId;
      assert all[i] in staged || all[i] in incoming;
      PassChangesAre(staged, incoming, all[i]);
      OfAnimeMembers(changes, animeId, all[i]);
      var k :| 0 <= k < |mine| && mine[k] == all[i];
    }
  }

  lemma PassDominates(staged: seq<RemoteChange>, incoming: seq<RemoteChange>, change: RemoteChange)
    ensures Dominated(change, ChangesOf(PassEntries(staged, incoming)))
      <==> DeletesAfter(staged + incoming, change.recordId, change.timestamp)
  {
    var changes, all := ChangesOf(PassEntries(staged, incoming)), staged + incoming;
    if Dominated(change, changes) {
      var i :| 0 <= i < |changes| && changes[i].changeType == Delete && changes[i].recordId == change.recordId
               && changes[i].timestamp >= change.timestamp;
      PassChangesAre(staged, incoming, changes[i]);
      assert changes[i] in all;
    }
    if DeletesAfter(all, change.recordId, change.timestamp) {
      var i :| 0 <= i < |all| && all[i].changeType == Delete && all[i].recordId == change.recordId
               && all[i].timestamp >= change.timestamp;
      assert all[i] in staged || all[i] in incoming;
      PassChangesAre(staged, incoming, all[i]);
      var k :| 0 <= k < |changes| && changes[k] == all[i];
    }
  }

  lemma PassIsSafe(t: Table, before: Animes, staged: seq<RemoteChange>, incoming: seq<RemoteChange>)
    requires AllCoherent(staged) && AllCoherent(incoming)
    ensures var (after, kept) := Pass(before, staged, incoming, Unacked(t));
      UnsentEditsAreSafe(t, before, after, staged + incoming, kept)
  {
    var (after, kept) := Pass(before, staged, incoming, Unacked(t));
    var changes, context := ChangesOf(PassEntries(staged, incoming)), ContextOf(before, Unacked(t));
    PassChangesAreCoherent(staged, incoming);
    forall animeId | HasUnsentEdit(t, animeId)
      ensures LocalRow(after, animeId)
        == if Deletes(staged + incoming, animeId) then None else LocalRow(before, animeId)
    {
      UnackedAre(t, animeId);
      BlockedPassDeletes(before, changes, context, animeId);
      PassDeletes(staged, incoming, animeId);
    }
    forall change
      ensures change in kept
        <==> (change in staged + incoming && change.changeType != Delete && HasUnsentEdit(t, change.recordId)
              && !DeletesAfter(staged + incoming, change.recordId, change.timestamp))
    {
      UnackedAre(t, change.recordId);
      PassStages(before, staged, incoming, Unacked(t), change);
      PassDominates(staged, incoming, change);
    }
  }

  /** A heal leaves every anime with an unsent edit alone, and heals every other one it lists once. */
  ghost predicate HealIsSafe(t: Table, before: Animes, after: Animes, remote: seq<Listed>) {
    && (forall animeId | HasUnsentEdit(t, animeId) :: LocalRow(after, animeId) == LocalRow(before, animeId))
    && (UniqueIds(remote) ==>
          forall i | 0 <= i < |remote| && !HasUnsentEdit(t, remote[i].anime.id) ::
            HealedRow(LocalRow(before, remote[i].anime.id), LocalRow(after, remote[i].anime.id), remote[i]))
  }

  lemma {:induction false} HealSkips(before: Animes, remote: seq<Listed>, unacked: set<AnimeId>, animeId: AnimeId)
    requires animeId in unacked
    ensures LocalRow(HealAll(before, remote, unacked).0, animeId) == LocalRow(before, animeId)
  {
    if remote != [] {
      var last := remote[|remote| - 1];
      HealSkips(before, remote[..|remote| - 1], unacked, animeId);
      if last.anime.id !in unacked {
        HealAnimeTouchesOnlyItsKey(HealAll(before, remote[..|remote| - 1], unacked).0, last,
                                   LocalRow(before, last.anime.id), animeId);
      }
    }
  }

  lemma HealAllIsSafe(t: Table, before: Animes, remote: seq<Listed>)
    ensures HealIsSafe(t, before, HealAll(before, remote, Unacked(t)).0, remote)
  {
    var after := HealAll(before, remote, Unacked(t)).0;
    hide HealAll, HealedRow, Unacked;
    forall animeId | HasUnsentEdit(t, animeId) ensures LocalRow(after, animeId) == LocalRow(before, animeId) {
      UnackedAre(t, animeId);
      HealSkips(before, remote, Unacked(t), animeId);
    }
    if UniqueIds(remote) {
      forall i | 0 <= i < |remote| && !HasUnsentEdit(t, remote[i].anime.id)
        ensures HealedRow(LocalRow(before, remote[i].anime.id), LocalRow(after, remote[i].anime.id), remote[i])
      {
        UnackedAre(t, remote[i].anime.id);
        HealAllHealsEachRow(before, remote, Unacked(t), remote[i].anime.id);
      }
    }
  }
}
