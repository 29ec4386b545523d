/** The `animes` table: its columns, the bridge snapshot they are written from, and its three writers. */
module AnimeTable {
  import opened Basics

  datatype Column =
    | Nombre | Estado | NroCapVisto | TotalCap | Activo | PrimeraVez | Dias | Generos | Tipo
    | FechaUltCapVisto | FechaEstreno | FechaCreacion | FechaEliminacion | Portada | Pagina
    | Carpeta | FolderRelative | Estudios | Origen | Duracion | Episodes | Season

  /** A name in a `changed_fields` list: a column this build names, or any other text. */
  datatype FieldName = Known(column: Column) | Unknown(name: string)

  /** A value of a snapshot or of a column; an absent key reads as SQL NULL. */
  datatype Value = Scalar(json: Json) | Items(items: seq<Value>) | Serialized(of: Value)

  const NULL_VALUE := Scalar(Json.Null)

  type Columns = map<Column, Value>

  /** The columns that hold a list or a record, as text. */
  predicate IsSerialized(column: Column) { column == Dias || column == Generos || column == Episodes || column == Season }

  /** The list or record a stored text is read back as. */
  function ReadBack(stored: Value): Option<Value> { if stored.Serialized? then Some(stored.of) else None }

  function Get(columns: Columns, column: Column): Value {
    if column in columns then columns[column] else NULL_VALUE
  }

  /** A snapshot's field is worth storing: there, not null and, for episode lengths, not empty. */
  predicate HasContent(fields: Columns, column: Column) {
    Get(fields, column) != NULL_VALUE && (column == Episodes ==> Get(fields, column) != Items([]))
  }

  /** What a column holds of a snapshot: a list or record as text it is read back from, NULL for none, any other field as it is. */
  predicate Stores(stored: Value, fields: Columns, column: Column) {
    if !IsSerialized(column) then stored == Get(fields, column)
    else if HasContent(fields, column) then ReadBack(stored) == Some(Get(fields, column))
    else stored == NULL_VALUE
  }

  /** The two rows of columns read the same in SQL. */
  ghost predicate SameColumns(a: Columns, b: Columns) { forall column: Column :: Get(a, column) == Get(b, column) }

  /** One anime as the bridge describes it: its id and the fields its snapshot carries. */
  datatype Anime = Anime(id: AnimeId, fields: Columns)

  datatype AnimeRow = AnimeRow(columns: Columns, guard: Option<int>, token: Option<int>)

  type Animes = map<AnimeId, AnimeRow>

  /** `value ? JSON.stringify(value) : null` over an array field. */
  function SerializeList(anime: Anime, column: Column): Value {
    if column in anime.fields && anime.fields[column] != NULL_VALUE then Serialized(anime.fields[column]) else NULL_VALUE
  }

  /** Per-episode durations: absent, null and empty all store NULL. */
  function SerializeEpisodes(anime: Anime): Value {
    if Get(anime.fields, Episodes) == Items([]) then NULL_VALUE else SerializeList(anime, Episodes)
  }

  /** The value the full-row writer stores in a column. */
  function UpsertValue(anime: Anime, column: Column): Value {
    match column
    case Nombre => Get(anime.fields, Nombre)
    case Estado => Get(anime.fields, Estado)
    case NroCapVisto => Get(anime.fields, NroCapVisto)
    case TotalCap => Get(anime.fields, TotalCap)
    case Activo => Get(anime.fields, Activo)
    case PrimeraVez => Get(anime.fields, PrimeraVez)
    case Dias => SerializeList(anime, Dias)
    case Generos => SerializeList(anime, Generos)
    case Tipo => Get(anime.fields, Tipo)
    case FechaUltCapVisto => Get(anime.fields, FechaUltCapVisto)
    case FechaEstreno => Get(anime.fields, FechaEstreno)
    case FechaCreacion => Get(anime.fields, FechaCreacion)
    case FechaEliminacion => Get(anime.fields, FechaEliminacion)
    case Portada => Get(anime.fields, Portada)
    case Pagina => Get(anime.fields, Pagina)
    case Carpeta => Get(anime.fields, Carpeta)
    case FolderRelative => Get(anime.fields, FolderRelative)
    case Estudios => Get(anime.fields, Estudios)
    case Origen => Get(anime.fields, Origen)
    case Duracion => Get(anime.fields, Duracion)
    case Episodes => SerializeEpisodes(anime)
    case Season => SerializeList(anime, Season)
  }

  /** The columns of a full-row write: every one, each with its own value. */
  function UpsertColumns(anime: Anime): Columns { map column: Column :: UpsertValue(anime, column) }

  /** Inserts the snapshot, or overwrites its row; an absent guard or token leaves the stored one. */
  function Upsert(animes: Animes, anime: Anime, guard: Option<int>, token: Option<int>): Animes {
    var row := if anime.id in animes then animes[anime.id] else AnimeRow(map[], None, None);
    animes[anime.id := AnimeRow(
      row.columns + UpsertColumns(anime),
      if guard.Some? then guard else row.guard,
      if token.Some? then token else row.token)]
  }

  /** Writes some columns and the staleness guard of an existing row. */
  function ApplyPartial(animes: Animes, id: AnimeId, columns: Columns, guard: int): Animes {
    if id in animes
    then animes[id := animes[id].(columns := animes[id].columns + columns, guard := Some(guard))]
    else animes
  }

  /** Writes only the bridge token of an existing row. */
  function ApplyToken(animes: Animes, id: AnimeId, token: Option<int>): Animes {
    if id in animes then animes[id := animes[id].(token := token)] else animes
  }
}
