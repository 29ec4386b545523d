/** The field-level half of the merge boundary: partial updates and the diff of the snapshot heal. */
module FieldMerge {
  import opened Basics
  import opened AnimeTable

  const MERGEABLE_FIELDS: seq<Column> := [
    Nombre, Estado, NroCapVisto, TotalCap, Activo, PrimeraVez, Dias, Generos, Tipo, FechaUltCapVisto,
    FechaEstreno, FechaCreacion, FechaEliminacion, Portada, Pagina, Carpeta, Estudios, Origen, Duracion,
    Episodes, Season]

  /** The value a known field name stores; `folderRelative` is never a field name of its own. */
  function MapKnownField(field: FieldName, anime: Anime): Option<Value> {
    match field
    case Unknown(_) => None
    case Known(column) =>
      match column
      case Dias => Some(SerializeList(anime, Dias))
      case Generos => Some(SerializeList(anime, Generos))
      case Episodes => Some(SerializeEpisodes(anime))
      case Season => Some(SerializeList(anime, Season))
      case FolderRelative => None
      case _ => Some(Get(anime.fields, column))
  }

  function MapCoupledColumns(field: FieldName, anime: Anime): Columns {
    if field == Known(Carpeta) then map[FolderRelative := Get(anime.fields, FolderRelative)] else map[]
  }

  /** The columns a list of changed fields writes; unknown names write nothing. */
  function PartialColumns(fields: seq<FieldName>, anime: Anime): Columns {
    if fields == [] then map[]
    else
      var last := fields[|fields| - 1];
      var before := PartialColumns(fields[..|fields| - 1], anime);
      if MapKnownField(last, anime).Some? && last.Known?
      then before[last.column := MapKnownField(last, anime).value] + MapCoupledColumns(last, anime)
      else before
  }

  method BuildPartialUpdate(fields: seq<FieldName>, anime: Anime) returns (columns: Columns, skipped: seq<FieldName>)
    ensures columns == PartialColumns(fields, anime)
    ensures forall field :: field in skipped <==> field in fields && MapKnownField(field, anime).None?
  {
    columns, skipped := map[], [];
    for i := 0 to |fields|
      invariant columns == PartialColumns(fields[..i], anime)
      invariant forall field :: field in skipped <==> field in fields[..i] && MapKnownField(field, anime).None?
    {
      assert fields[..i + 1][..i] == fields[..i];
      var mapped := MapKnownField(fields[i], anime);
      if mapped.None? {
        skipped := skipped + [fields[i]];
        continue;
      }
      columns := columns[fields[i].column := mapped.value];
      columns := columns + MapCoupledColumns(fields[i], anime);
    }
    assert fields[..|fields|] == fields;
  }

  /** A field the heal writes: its own value or a coupled column differs from the stored row. */
  predicate Differs(column: Column, anime: Anime, stored: Columns) {
    var field := Known(column);
    && MapKnownField(field, anime).Some?
    && (MapKnownField(field, anime).value != Get(stored, column)
        || exists c | c in MapCoupledColumns(field, anime) :: MapCoupledColumns(field, anime)[c] != Get(stored, c))
  }

  method DeriveChangedFields(anime: Anime, stored: Columns) returns (changed: seq<FieldName>)
    ensures changed == ChangedFields(anime, stored, MERGEABLE_FIELDS)
  {
    changed := [];
    for i := 0 to |MERGEABLE_FIELDS|
      invariant changed == ChangedFields(anime, stored, MERGEABLE_FIELDS[..i])
    {
      assert MERGEABLE_FIELDS[..i + 1][..i] == MERGEABLE_FIELDS[..i];
      if Differs(MERGEABLE_FIELDS[i], anime, stored) {
        changed := changed + [Known(MERGEABLE_FIELDS[i])];
      }
    }
    assert MERGEABLE_FIELDS[..|MERGEABLE_FIELDS|] == MERGEABLE_FIELDS;
  }

  function ChangedFields(anime: Anime, stored: Columns, fields: seq<Column>): seq<FieldName> {
    if fields == [] then []
    else
      var last := fields[|fields| - 1];
      var before := ChangedFields(anime, stored, fields[..|fields| - 1]);
      if Differs(last, anime, stored) then before + [Known(last)] else before
  }

  /** A change is stale unless it is strictly newer than the stored guard; no guard is never stale. */
  predicate IsStale(timestamp: int, guard: Option<int>) { guard.Some? && timestamp <= guard.value }

  // ----- What the diff and the patch mean -----

  lemma EveryColumnButTheCoupledOneIsMergeable(column: Column)
    ensures column in MERGEABLE_FIELDS <==> column != FolderRelative
  {
  }

  lemma KnownFieldIsUpsertValue(anime: Anime, column: Column)
    ensures MapKnownField(Known(column), anime)
      == if column == FolderRelative then None else Some(UpsertValue(anime, column))
  {
  }

  /** The list of the diff and the cases of the field map agree with the full-row writer. */
  lemma FieldListMatchesUpsert(anime: Anime, column: Column)
    ensures column in MERGEABLE_FIELDS <==> MapKnownField(Known(column), anime).Some?
    ensures column in MERGEABLE_FIELDS ==> MapKnownField(Known(column), anime) == Some(UpsertValue(anime, column))
  {
    EveryColumnButTheCoupledOneIsMergeable(column);
    KnownFieldIsUpsertValue(anime, column);
  }

  lemma UpsertValueStores(anime: Anime, column: Column)
    ensures Stores(UpsertValue(anime, column), anime.fields, column)
  {
  }

  /**
   * The full-row writer stores the snapshot: every list and record as text it is read back from, every other field as it is. The
   * guard and the token are the given ones, or the stored ones; no other row is touched.
   */
  lemma UpsertStoresTheSnapshot(animes: Animes, anime: Anime, guard: Option<int>, token: Option<int>)
    ensures var after := Upsert(animes, anime, guard, token);
      && after.Keys == animes.Keys + {anime.id}
      && (forall id | id in animes && id != anime.id :: after[id] == animes[id])
      && (forall column: Column :: Stores(Get(after[anime.id].columns, column), anime.fields, column))
      && after[anime.id].guard
         == (if guard.Some? then guard else if anime.id in animes then animes[anime.id].guard else None)
      && after[anime.id].token
         == (if token.Some? then token else if anime.id in animes then animes[anime.id].token else None)
  {
    forall column: Column ensures Stores(UpsertValue(anime, column), anime.fields, column) {
      UpsertValueStores(anime, column);
    }
    hide UpsertValue, Stores;
  }

  /** Two different lists or records of one field are never stored alike. */
  lemma DifferentValuesAreStoredApart(a: Columns, b: Columns, column: Column, storedA: Value, storedB: Value)
    requires IsSerialized(column) && Stores(storedA, a, column) && Stores(storedB, b, column)
    requires HasContent(a, column) && Get(a, column) != Get(b, column)
    ensures storedA != storedB
  {
  }

  /** The list names the column, or the one it comes with. */
  predicate Names(fields: seq<FieldName>, column: Column) {
    if column == FolderRelative then Known(Carpeta) in fields else Known(column) in fields
  }

  /** A partial write stores the named fields of the snapshot, as the full write would, and nothing else of the row. */
  lemma PartialStoresTheNamedFields(animes: Animes, id: AnimeId, fields: seq<FieldName>, anime: Anime, guard: int)
    requires id in animes
    ensures var after := ApplyPartial(animes, id, PartialColumns(fields, anime), guard);
      && after.Keys == animes.Keys
      && (forall other | other in animes && other != id :: after[other] == animes[other])
      && after[id].guard == Some(guard) && after[id].token == animes[id].token
      && forall column: Column ::
           if Names(fields, column) then Stores(Get(after[id].columns, column), anime.fields, column)
           else Get(after[id].columns, column) == Get(animes[id].columns, column)
  {
    var after := ApplyPartial(animes, id, PartialColumns(fields, anime), guard);
    forall column: Column
      ensures if Names(fields, column) then Stores(Get(after[id].columns, column), anime.fields, column)
              else Get(after[id].columns, column) == Get(animes[id].columns, column)
    {
      PartialColumnsAre(fields, anime, column);
      UpsertValueStores(anime, column);
    }
  }

  lemma {:induction false} ChangedFieldsAre(anime: Anime, stored: Columns, fields: seq<Column>, field: FieldName)
    ensures field in ChangedFields(anime, stored, fields)
       <==> field.Known? && field.column in fields && Differs(field.column, anime, stored)
  {
    if fields != [] {
      ChangedFieldsAre(anime, stored, fields[..|fields| - 1], field);
      assert fields == fields[..|fields| - 1] + [fields[|fields| - 1]];
    }
  }

  /** The columns one named field writes, as the full-row writer would. */
  lemma OneFieldWrites(before: Columns, field: FieldName, anime: Anime, column: Column)
    ensures var after := if MapKnownField(field, anime).Some? && field.Known?
        then before[field.column := MapKnownField(field, anime).value] + MapCoupledColumns(field, anime)
        else before;
      if (field == Known(column) && column != FolderRelative) || (field == Known(Carpeta) && column == FolderRelative)
      then column in after && after[column] == UpsertValue(anime, column)
      else (column in after <==> column in before) && (column in before ==> after[column] == before[column])
  {
    if field.Known? {
      KnownFieldIsUpsertValue(anime, field.column);
    }
  }

  /** A partial update writes a named column with the full-row value, its coupled column too, and nothing else. */
  lemma {:induction false} PartialColumnsAre(fields: seq<FieldName>, anime: Anime, column: Column)
    ensures column in PartialColumns(fields, anime)
       <==> if column == FolderRelative then Known(Carpeta) in fields else Known(column) in fields
    ensures column in PartialColumns(fields, anime)
        ==> PartialColumns(fields, anime)[column] == UpsertValue(anime, column)
  {
    if fields != [] {
      var last := fields[|fields| - 1];
      var before := fields[..|fields| - 1];
      PartialColumnsAre(before, anime, column);
      OneFieldWrites(PartialColumns(before, anime), last, anime, column);
      assert fields == before + [last];
    }
  }

  /** Writing only what differs leaves the row exactly as the full-row writer would. */
  lemma DiffThenPatchRefinesUpsert(anime: Anime, stored: Columns)
    ensures var patch := PartialColumns(ChangedFields(anime, stored, MERGEABLE_FIELDS), anime);
      SameColumns(stored + patch, stored + UpsertColumns(anime))
  {
    var changed := ChangedFields(anime, stored, MERGEABLE_FIELDS);
    var patch := PartialColumns(changed, anime);
    forall column: Column
      ensures Get(stored + patch, column) == Get(stored + UpsertColumns(anime), column)
    {
      KnownFieldIsUpsertValue(anime, column);
      KnownFieldIsUpsertValue(anime, Carpeta);
      EveryColumnButTheCoupledOneIsMergeable(column);
      EveryColumnButTheCoupledOneIsMergeable(Carpeta);
      PartialColumnsAre(changed, anime, column);
      ChangedFieldsAre(anime, stored, MERGEABLE_FIELDS, Known(column));
      ChangedFieldsAre(anime, stored, MERGEABLE_FIELDS, Known(Carpeta));
    }
  }

  /** Nothing differs from a row the snapshot was just written over. */
  lemma {:induction false} NothingDiffersAfterUpsert(anime: Anime, stored: Columns, fields: seq<Column>)
    requires SameColumns(stored, stored + UpsertColumns(anime))
    ensures ChangedFields(anime, stored, fields) == []
  {
    if fields != [] {
      NothingDiffersAfterUpsert(anime, stored, fields[..|fields| - 1]);
      KnownFieldIsUpsertValue(anime, fields[|fields| - 1]);
      assert Get(stored, fields[|fields| - 1]) == Get(stored + UpsertColumns(anime), fields[|fields| - 1]);
      assert Get(stored, FolderRelative) == Get(stored + UpsertColumns(anime), FolderRelative);
    }
  }
}
