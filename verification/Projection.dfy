/** The optimistic overlay: accepted gestures folded over the durable row that moves underneath them. */
module Projection {
  import opened Basics
  import opened Gestures

  /** One row as a read returned it; two reads of the same values are different objects. */
  datatype DurableRow = DurableRow(read: nat, card: Card)

  /** One accepted gesture: the pair it was computed from and the pair it shows. */
  datatype Entry = Entry(id: nat, base: Shown, projected: Shown)

  datatype Record = Record(durable: DurableRow, entries: seq<Entry>)

  type Records = map<AnimeId, Record>

  /** The value reached from `from`, and the entries that led there: each continues the value so far. */
  function Fold(entries: seq<Entry>, from: Shown): (Shown, seq<Entry>) {
    if entries == [] then (from, [])
    else
      var (fields, applied) := Fold(entries[..|entries| - 1], from);
      var last := entries[|entries| - 1];
      if last.base == fields then (last.projected, applied + [last]) else (fields, applied)
  }

  method FoldAnimeMutationProjection(entries: seq<Entry>, from: Shown) returns (fields: Shown, applied: seq<Entry>)
    ensures (fields, applied) == Fold(entries, from)
  {
    fields, applied := from, [];
    for i := 0 to |entries|
      invariant (fields, applied) == Fold(entries[..i], from)
    {
      assert entries[..i + 1][..i] == entries[..i];
      if entries[i].base != fields {
        continue;
      }
      fields := entries[i].projected;
      applied := applied + [entries[i]];
    }
    assert entries[..|entries|] == entries;
  }

  // ----- Chains -----

  /** Each entry starts where the one before it ends, and moves. */
  predicate Linked(entries: seq<Entry>) {
    && (forall i | 0 <= i < |entries| :: entries[i].base != entries[i].projected)
    && forall i | 0 <= i < |entries| - 1 :: entries[i].projected == entries[i + 1].base
  }

  /** The chain applies fully from `from`. */
  predicate ChainFrom(entries: seq<Entry>, from: Shown) {
    Linked(entries) && (entries != [] ==> entries[0].base == from)
  }

  function Last(entries: seq<Entry>, from: Shown): Shown {
    if entries == [] then from else entries[|entries| - 1].projected
  }

  /** The first entry that starts at `from`, or none. */
  function StartAt(entries: seq<Entry>, from: Shown): (k: nat)
    ensures k <= |entries|
    ensures k < |entries| ==> entries[k].base == from
    ensures forall i | 0 <= i < k :: entries[i].base != from
  {
    if entries == [] then 0
    else if entries[0].base == from then 0
    else 1 + StartAt(entries[1..], from)
  }

  /** A chain folded from any value applies exactly its part from the first entry that starts there. */
  lemma {:induction false} FoldIsSuffix(entries: seq<Entry>, from: Shown)
    requires Linked(entries)
    ensures var k := StartAt(entries, from);
      Fold(entries, from) == (Last(entries[k..], from), entries[k..])
  {
    if entries != [] {
      var front, last := entries[..|entries| - 1], entries[|entries| - 1];
      FoldIsSuffix(front, from);
      var k := StartAt(front, from);
      StartAtFront(entries, from);
      if k < |front| {
        assert front[k..][|front[k..]| - 1] == front[|front| - 1] == entries[|front| - 1];
        assert entries[k..] == front[k..] + [last];
      } else {
        assert front[k..] == [];
        if last.base == from {
          assert Fold(front, from) == (from, []);
          assert [] + [last] == [last] == entries[k..];
        } else {
          assert entries[|entries|..] == [];
        }
      }
    }
  }

  lemma {:induction false} StartAtFront(entries: seq<Entry>, from: Shown)
    requires entries != []
    ensures var front, last := entries[..|entries| - 1], entries[|entries| - 1];
      StartAt(entries, from)
      == if StartAt(front, from) < |front| then StartAt(front, from)
         else if last.base == from then |front| else |entries|
  {
    if |entries| > 1 && entries[0].base != from {
      assert entries[1..][..|entries| - 2] == entries[..|entries| - 1][1..];
      StartAtFront(entries[1..], from);
    }
  }

  /**
   * The display takes only two values: whatever the durable row turns out to hold, a chain shows that value or the value
   * of the last accepted gesture, never one in between.
   */
  lemma OnlyTwoValuesAreShown(entries: seq<Entry>, durable: Shown)
    requires Linked(entries)
    ensures var shown := Fold(entries, durable).0;
      && (shown == durable || shown == Last(entries, durable))
      && (shown == Last(entries, durable) <==>
            durable == Last(entries, durable) || exists i | 0 <= i < |entries| :: entries[i].base == durable)
  {
    FoldIsSuffix(entries, durable);
    var k := StartAt(entries, durable);
    if k < |entries| {
      assert entries[k..][|entries[k..]| - 1] == entries[|entries| - 1];
    }
  }

  /** What a read leaves of a chain still applies fully, from the row just read. */
  lemma FoldLeavesAChain(entries: seq<Entry>, durable: Shown)
    requires Linked(entries)
    ensures ChainFrom(Fold(entries, durable).1, durable)
    ensures Last(Fold(entries, durable).1, durable) == Fold(entries, durable).0
    ensures |Fold(entries, durable).1| <= |entries|
    ensures durable == Last(entries, durable) ==> Fold(entries, durable).0 == durable
  {
    FoldIsSuffix(entries, durable);
    var k := StartAt(entries, durable);
    if k < |entries| {
      assert entries[k..][|entries[k..]| - 1] == entries[|entries| - 1];
    }
  }

  /**
   * A read empties the list exactly when the row carries the value the chain leads to, or one no gesture started from.
   */
  lemma ObservationEmptiesExactlyWhen(record: Record, row: DurableRow)
    requires Linked(record.entries)
    ensures Observed(Some(record), row).entries == [] <==>
      row.card.shown == Last(record.entries, row.card.shown)
      || forall i | 0 <= i < |record.entries| :: record.entries[i].base != row.card.shown
  {
    OnlyTwoValuesAreShown(record.entries, row.card.shown);
    FoldIsSuffix(record.entries, row.card.shown);
  }

  // ----- The store -----

  /** The row as the card draws it under its record. */
  function Overlay(card: Card, entries: seq<Entry>): Card { card.(shown := Fold(entries, card.shown).0) }

  /** What one read leaves of a record: the new row, and no entry it has absorbed. */
  function Observed(record: Option<Record>, row: DurableRow): Record {
    var entries := if record.Some? then record.value.entries else [];
    var (fields, applied) := Fold(entries, row.card.shown);
    Record(row, if fields == row.card.shown then [] else applied)
  }

  function RecordOf(records: Records, animeId: AnimeId): Option<Record> {
    if animeId in records then Some(records[animeId]) else None
  }

  datatype Read = Read(animeId: AnimeId, row: DurableRow)

  /** The read dropped entries, or is of a row not drawn from before. */
  predicate Pruned(record: Option<Record>, row: DurableRow) {
    record.Some? && |Observed(record, row).entries| != |record.value.entries|
  }

  predicate Changes(record: Option<Record>, row: DurableRow) {
    record.None? || record.value.durable != row || Pruned(record, row)
  }

  function ObserveOne(records: Records, read: Read): Records {
    var record := RecordOf(records, read.animeId);
    if Changes(record, read.row) then records[read.animeId := Observed(record, read.row)] else records
  }

  function ObserveAll(records: Records, batch: seq<Read>): Records {
    if batch == [] then records else ObserveOne(ObserveAll(records, batch[..|batch| - 1]), batch[|batch| - 1])
  }

  /** Some read of the batch retires an entry. */
  predicate AnyRetires(records: Records, batch: seq<Read>) {
    batch != []
    && (AnyRetires(records, batch[..|batch| - 1])
        || Pruned(RecordOf(ObserveAll(records, batch[..|batch| - 1]), batch[|batch| - 1].animeId), batch[|batch| - 1].row))
  }

  class ProjectionStore {
    var records: Records
    var current: nat

    /** How many times the consumers were told of a change. */
    var notified: nat

    /** Every record's chain applies fully from its own durable row, under ids handed out in order. */
    ghost predicate Valid()
      reads this
    {
      forall animeId | animeId in records :: Kept(records[animeId], current)
    }

    constructor ()
      ensures Valid() && records == map[] && current == 0 && notified == 0
    {
      records, current, notified := map[], 0, 0;
    }

    /** The card of `animeId` as it is drawn. */
    function Drawn(animeId: AnimeId, card: Card): Card
      reads this
    {
      if animeId in records then Overlay(card, records[animeId].entries) else card
    }

    /** Accepts one gesture before its write: the drawn value moves now. Nothing to draw on, or no move, is no entry. */
    method Accept(animeId: AnimeId, gesture: Gesture, now: int) returns (id: Option<nat>)
      requires Valid()
      modifies this
      ensures Valid()
      ensures forall other | other in old(records) && other != animeId :: other in records && records[other] == old(records[other])
      ensures records.Keys == old(records.Keys)
      ensures animeId !in old(records) ==> id == None && records == old(records)
      ensures animeId in old(records) ==>
        var record := old(records[animeId]);
        var base := Overlay(record.durable.card, record.entries);
        var projected := Project(gesture, base, now);
        && (id == None <==> projected == base.shown)
        && (id == None ==> records == old(records) && notified == old(notified))
        && (id.Some? ==>
              && id.value == old(current) + 1 == current && notified == old(notified) + 1
              && records[animeId] == Record(record.durable, record.entries + [Entry(id.value, base.shown, projected)]))
        && Drawn(animeId, record.durable.card).shown == projected
    {
      hide Fold, Kept;
      if animeId !in records {
        return None;
      }
      var record := records[animeId];
      var base := Overlay(record.durable.card, record.entries);
      var projected := Project(gesture, base, now);
      if projected == base.shown {
        return None;
      }
      ghost var before := current;
      current := current + 1;
      var entry := Entry(current, base.shown, projected);
      ChainGrows(record, entry, before);
      forall other | other in records ensures Kept(records[other], current) {
        KeptLater(records[other], before, current);
      }
      records := records[animeId := Record(record.durable, record.entries + [entry])];
      notified := notified + 1;
      return Some(current);
    }

    /** Drops a rejected gesture and every later one of its anime. */
    method Drop(animeId: AnimeId, id: nat)
      requires Valid()
      modifies this
      ensures Valid() && current == old(current)
      ensures forall other | other in old(records) && other != animeId :: other in records && records[other] == old(records[other])
      ensures records.Keys == old(records.Keys)
      ensures animeId in records ==>
        var before := old(records[animeId]);
        records[animeId] == Record(before.durable, before.entries[..IndexOf(before.entries, id)])
    {
      if animeId !in records {
        return;
      }
      hide Kept, Fold;
      var record := records[animeId];
      var index := 0;
      while index < |record.entries| && record.entries[index].id != id
        invariant 0 <= index <= |record.entries|
        invariant IndexOf(record.entries, id) == index + IndexOf(record.entries[index..], id)
      {
        assert record.entries[index..][1..] == record.entries[index + 1..];
        index := index + 1;
      }
      if index == |record.entries| {
        return;
      }
      PrefixIsKept(record, index, current);
      records := records[animeId := Record(record.durable, record.entries[..index])];
      notified := notified + 1;
    }

    /** Records the rows just read and retires the intents they absorbed; consumers hear of it only if one was retired. */
    method Observe(batch: seq<Read>)
      requires Valid()
      modifies this
      ensures Valid() && current == old(current)
      ensures records == ObserveAll(old(records), batch)
      ensures notified == old(notified) + if AnyRetires(old(records), batch) then 1 else 0
    {
      hide Fold, Kept;
      var next, didRetire := records, false;
      for i := 0 to |batch|
        invariant next == ObserveAll(records, batch[..i])
        invariant didRetire == AnyRetires(records, batch[..i])
        invariant forall animeId | animeId in next :: Kept(next[animeId], current)
        modifies {}
      {
        assert batch[..i + 1][..i] == batch[..i];
        var record := RecordOf(next, batch[i].animeId);
        var row := batch[i].row;
        var fields, applied := FoldAnimeMutationProjection(if record.Some? then record.value.entries else [], row.card.shown);
        var entries := if fields == row.card.shown then [] else applied;
        ObservedIsKept(record, row, current);
        var didPrune := record.Some? && |entries| != |record.value.entries|;
        if record.Some? && record.value.durable == row && !didPrune {
          continue;
        }
        next := next[batch[i].animeId := Record(row, entries)];
        didRetire := didRetire || didPrune;
      }
      assert batch[..|batch|] == batch;
      records := next;
      if didRetire {
        notified := notified + 1;
      }
    }
  }

  /** Where an entry is, or the length of a list without it. */
  function IndexOf(entries: seq<Entry>, id: nat): (k: nat)
    ensures k <= |entries| && (k < |entries| ==> entries[k].id == id)
    ensures forall i | 0 <= i < k :: entries[i].id != id
  {
    if entries == [] || entries[0].id == id then 0 else 1 + IndexOf(entries[1..], id)
  }

  predicate IdsRise(entries: seq<Entry>, current: nat) {
    && (forall i, j | 0 <= i < j < |entries| :: entries[i].id < entries[j].id)
    && forall i | 0 <= i < |entries| :: entries[i].id <= current
  }

  /** What every record keeps. */
  predicate Kept(record: Record, current: nat) {
    ChainFrom(record.entries, record.durable.card.shown) && IdsRise(record.entries, current)
  }

  lemma KeptLater(record: Record, current: nat, later: nat)
    requires Kept(record, current) && current <= later
    ensures Kept(record, later)
  {
  }

  /** An accepted gesture continues the chain, and becomes what is drawn. */
  lemma ChainGrows(record: Record, entry: Entry, current: nat)
    requires Kept(record, current) && entry.id == current + 1
    requires entry.base == Fold(record.entries, record.durable.card.shown).0 && entry.base != entry.projected
    ensures Kept(Record(record.durable, record.entries + [entry]), current + 1)
    ensures Fold(record.entries + [entry], record.durable.card.shown) == (entry.projected, record.entries + [entry])
  {
    var entries := record.entries + [entry];
    assert entries[..|entries| - 1] == record.entries;
    FoldsFully(record.entries, record.durable.card.shown);
  }

  lemma FoldsFully(entries: seq<Entry>, from: Shown)
    requires ChainFrom(entries, from)
    ensures Fold(entries, from) == (Last(entries, from), entries)
  {
    FoldIsSuffix(entries, from);
    if entries != [] {
      assert StartAt(entries, from) == 0;
      assert entries[0..] == entries;
    }
  }

  lemma PrefixIsKept(record: Record, index: nat, current: nat)
    requires Kept(record, current) && index <= |record.entries|
    ensures Kept(Record(record.durable, record.entries[..index]), current)
  {
  }

  lemma ObservedIsKept(record: Option<Record>, row: DurableRow, current: nat)
    requires record.Some? ==> Kept(record.value, current)
    ensures Kept(Observed(record, row), current)
  {
    if record.Some? {
      var entries := record.value.entries;
      FoldLeavesAChain(entries, row.card.shown);
      FoldIsSuffix(entries, row.card.shown);
      SuffixRises(entries, StartAt(entries, row.card.shown), current);
      hide Fold, Linked, IdsRise;
    } else {
      assert Fold([], row.card.shown) == (row.card.shown, []);
    }
  }

  lemma SuffixRises(entries: seq<Entry>, k: nat, current: nat)
    requires IdsRise(entries, current) && k <= |entries|
    ensures IdsRise(entries[k..], current)
  {
  }
}
