/** The full-snapshot heal: each bridge anime is written over its local row by diff and patch. */
module SnapshotHeal {
  import opened Basics
  import opened AnimeTable
  import opened FieldMerge

  /** One anime of the bridge's full list, with the token it was listed with. */
  datatype Listed = Listed(anime: Anime, token: int)

  /** Heals one key from the row read before the heal began, if there was one. */
  function HealAnime(animes: Animes, listed: Listed, local: Option<AnimeRow>): (Animes, bool) {
    var anime := listed.anime;
    if local.None? then (Upsert(animes, anime, None, Some(listed.token)), true)
    else
      var row := local.value;
      var tokened := if row.token != Some(listed.token) then ApplyToken(animes, anime.id, Some(listed.token)) else animes;
      var changed := ChangedFields(anime, row.columns, MERGEABLE_FIELDS);
      if changed == [] then (tokened, false)
      else
        (ApplyPartial(tokened, anime.id, PartialColumns(changed, anime), if row.guard.Some? then row.guard.value else 0),
         true)
  }

  function LocalRow(animes: Animes, id: AnimeId): Option<AnimeRow> { if id in animes then Some(animes[id]) else None }

  /** The heal over a whole list: un-acked animes are skipped, local rows are those of `before`. */
  function HealAll(before: Animes, remote: seq<Listed>, unacked: set<AnimeId>): (Animes, nat) {
    if remote == [] then (before, 0)
    else
      var last := remote[|remote| - 1];
      var (animes, healed) := HealAll(before, remote[..|remote| - 1], unacked);
      if last.anime.id in unacked then (animes, healed)
      else
        var (next, wrote) := HealAnime(animes, last, LocalRow(before, last.anime.id));
        (next, if wrote then healed + 1 else healed)
  }

  predicate UniqueIds(remote: seq<Listed>) {
    forall i, j | 0 <= i < j < |remote| :: remote[i].anime.id != remote[j].anime.id
  }

  predicate Lists(remote: seq<Listed>, id: AnimeId) { exists i | 0 <= i < |remote| :: remote[i].anime.id == id }

  /** What a heal owes one row: the listed token, the listed columns, and a guard no newer than its own. */
  ghost predicate HealedRow(before: Option<AnimeRow>, after: Option<AnimeRow>, listed: Listed) {
    && after.Some?
    && after.value.token == Some(listed.token)
    && (forall column: Column :: Stores(Get(after.value.columns, column), listed.anime.fields, column))
    && (before.None? ==> after.value == AnimeRow(map[] + UpsertColumns(listed.anime), None, Some(listed.token)))
    && (before.Some? ==>
          && SameColumns(after.value.columns, before.value.columns + UpsertColumns(listed.anime))
          && (after.value.guard == before.value.guard || (before.value.guard.None? && after.value.guard == Some(0))))
  }

  /** One healed key reads as the full-row writer would leave it; its guard moves from none to 0 at most. */
  lemma HealAnimeRefinesUpsert(animes: Animes, listed: Listed)
    ensures var id := listed.anime.id;
      HealedRow(LocalRow(animes, id), LocalRow(HealAnime(animes, listed, LocalRow(animes, id)).0, id), listed)
  {
    var id := listed.anime.id;
    UpsertStoresTheSnapshot(animes, listed.anime, None, None);
    forall column: Column ensures Stores(UpsertValue(listed.anime, column), listed.anime.fields, column) {
      UpsertValueStores(listed.anime, column);
    }
    hide UpsertValue, Stores;
    if id in animes {
      var row := animes[id];
      DiffThenPatchRefinesUpsert(listed.anime, row.columns);
      var changed := ChangedFields(listed.anime, row.columns, MERGEABLE_FIELDS);
      if changed == [] {
        assert PartialColumns(changed, listed.anime) == map[];
        assert row.columns + map[] == row.columns;
      }
    }
  }

  /** A heal counts a row as written exactly when it was missing or some column did not hold what the snapshot says. */
  lemma HealWritesExactlyWhen(animes: Animes, listed: Listed, local: Option<AnimeRow>)
    ensures HealAnime(animes, listed, local).1 <==>
      local.None? || exists column: Column :: !Stores(Get(local.value.columns, column), listed.anime.fields, column)
  {
    if local.Some? {
      var anime, stored := listed.anime, local.value.columns;
      forall column: Column
        ensures Stores(Get(stored, column), anime.fields, column) <==> Get(stored, column) == UpsertValue(anime, column)
      {
        UpsertValueStores(anime, column);
      }
      var changed := ChangedFields(anime, stored, MERGEABLE_FIELDS);
      if changed == [] {
        DiffThenPatchRefinesUpsert(anime, stored);
        assert PartialColumns(changed, anime) == map[] && stored + map[] == stored;
      } else {
        assert changed[0] in changed;
        ChangedFieldsAre(anime, stored, MERGEABLE_FIELDS, changed[0]);
        KnownFieldIsUpsertValue(anime, changed[0].column);
        KnownFieldIsUpsertValue(anime, FolderRelative);
      }
    }
  }

  lemma HealAnimeTouchesOnlyItsKey(animes: Animes, listed: Listed, local: Option<AnimeRow>, id: AnimeId)
    requires id != listed.anime.id
    ensures LocalRow(HealAnime(animes, listed, local).0, id) == LocalRow(animes, id)
  {
  }

  /** A heal of a list with unique ids: un-acked and unlisted rows stay, every other listed row is healed. */
  lemma {:induction false} HealAllHealsEachRow(before: Animes, remote: seq<Listed>, unacked: set<AnimeId>, id: AnimeId)
    requires UniqueIds(remote)
    ensures id in unacked || !Lists(remote, id) ==>
      LocalRow(HealAll(before, remote, unacked).0, id) == LocalRow(before, id)
    ensures forall i | 0 <= i < |remote| && remote[i].anime.id == id && id !in unacked ::
      HealedRow(LocalRow(before, id), LocalRow(HealAll(before, remote, unacked).0, id), remote[i])
  {
    if remote != [] {
      var last := remote[|remote| - 1];
      var rest := remote[..|remote| - 1];
      HealAllHealsEachRow(before, rest, unacked, id);
      var animes := HealAll(before, rest, unacked).0;
      assert Lists(rest, id) ==> Lists(remote, id);
      if last.anime.id == id {
        assert !Lists(rest, id);
        if id !in unacked {
          HealAnimeReadsOnlyItsRow(animes, before, last);
          HealAnimeRefinesUpsert(before, last);
        }
        assert Lists(remote, id);
      } else {
        if last.anime.id !in unacked {
          HealAnimeTouchesOnlyItsKey(animes, last, LocalRow(before, last.anime.id), id);
        }
        assert Lists(remote, id) ==> Lists(rest, id);
      }
    }
  }

  lemma HealAnimeReadsOnlyItsRow(animes: Animes, before: Animes, listed: Listed)
    requires LocalRow(animes, listed.anime.id) == LocalRow(before, listed.anime.id)
    ensures var id := listed.anime.id;
      LocalRow(HealAnime(animes, listed, LocalRow(before, id)).0, id)
      == LocalRow(HealAnime(before, listed, LocalRow(before, id)).0, id)
  {
  }

  /** A second heal from a list the rows already carry writes nothing. */
  lemma {:induction false} HealIsIdempotent(healed: Animes, remote: seq<Listed>, unacked: set<AnimeId>)
    requires forall i | 0 <= i < |remote| && remote[i].anime.id !in unacked ::
      && remote[i].anime.id in healed
      && healed[remote[i].anime.id].token == Some(remote[i].token)
      && SameColumns(healed[remote[i].anime.id].columns,
           healed[remote[i].anime.id].columns + UpsertColumns(remote[i].anime))
    ensures HealAll(healed, remote, unacked) == (healed, 0)
  {
    if remote != [] {
      var last := remote[|remote| - 1];
      HealIsIdempotent(healed, remote[..|remote| - 1], unacked);
      if last.anime.id !in unacked {
        NothingDiffersAfterUpsert(last.anime, healed[last.anime.id].columns, MERGEABLE_FIELDS);
      }
    }
  }

  /** Healing twice from one list with unique ids is healing once: the second heal writes no row. */
  lemma SecondHealWritesNothing(before: Animes, remote: seq<Listed>, unacked: set<AnimeId>)
    requires UniqueIds(remote)
    ensures var healed := HealAll(before, remote, unacked).0;
      HealAll(healed, remote, unacked) == (healed, 0)
  {
    var healed := HealAll(before, remote, unacked).0;
    forall i | 0 <= i < |remote| && remote[i].anime.id !in unacked
      ensures remote[i].anime.id in healed
      ensures healed[remote[i].anime.id].token == Some(remote[i].token)
      ensures SameColumns(healed[remote[i].anime.id].columns,
                healed[remote[i].anime.id].columns + UpsertColumns(remote[i].anime))
    {
      var id := remote[i].anime.id;
      HealAllHealsEachRow(before, remote, unacked, id);
      var columns := healed[id].columns;
      forall column: Column ensures Get(columns, column) == Get(columns + UpsertColumns(remote[i].anime), column) {
        if id in before {
          assert Get(columns, column) == Get(before[id].columns + UpsertColumns(remote[i].anime), column);
        }
      }
    }
    HealIsIdempotent(healed, remote, unacked);
  }
}
