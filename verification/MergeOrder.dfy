/** How a merge pass reads for one anime: ordering, application and deferral commute with looking at one record. */
module MergeOrder {
  import opened Basics
  import opened MergeBoundary

  // ----- Stable ordering and filtering -----

  function Where(p: Entry -> bool, entries: seq<Entry>): seq<Entry> {
    if entries == [] then []
    else if p(entries[0]) then [entries[0]] + Where(p, entries[1..])
    else Where(p, entries[1..])
  }

  lemma WhereOne(p: Entry -> bool, entry: Entry, rest: seq<Entry>)
    ensures Where(p, [entry] + rest) == if p(entry) then [entry] + Where(p, rest) else Where(p, rest)
  {
    assert ([entry] + rest)[1..] == rest;
  }

  lemma {:induction false} WhereConcat(p: Entry -> bool, a: seq<Entry>, b: seq<Entry>)
    ensures Where(p, a + b) == Where(p, a) + Where(p, b)
  {
    if a == [] {
      assert a + b == b;
    } else {
      WhereConcat(p, a[1..], b);
      assert a + b == [a[0]] + (a[1..] + b);
      WhereOne(p, a[0], a[1..] + b);
    }
  }

  lemma WhereLast(p: Entry -> bool, entries: seq<Entry>)
    requires entries != []
    ensures var before := Where(p, entries[..|entries| - 1]);
      Where(p, entries) == if p(entries[|entries| - 1]) then before + [entries[|entries| - 1]] else before
  {
    var last := entries[|entries| - 1];
    assert entries == entries[..|entries| - 1] + [last];
    WhereConcat(p, entries[..|entries| - 1], [last]);
    assert Where(p, [last]) == if p(last) then [last] else [];
  }

  lemma {:induction false} WhereMembers(p: Entry -> bool, entries: seq<Entry>, entry: Entry)
    ensures entry in Where(p, entries) <==> entry in entries && p(entry)
  {
    if entries != [] {
      WhereMembers(p, entries[1..], entry);
    }
  }

  ghost predicate Sorted(entries: seq<Entry>) {
    forall i, j | 0 <= i < j < |entries| :: entries[i].change.timestamp <= entries[j].change.timestamp
  }

  lemma {:induction false} InsertMembers(entry: Entry, sorted: seq<Entry>, other: Entry)
    ensures other in Insert(entry, sorted) <==> other == entry || other in sorted
  {
    if sorted != [] {
      InsertMembers(entry, sorted[1..], other);
    }
  }

  lemma {:induction false} InsertSorts(entry: Entry, sorted: seq<Entry>)
    requires Sorted(sorted)
    ensures Sorted(Insert(entry, sorted))
  {
    if sorted != [] && entry.change.timestamp > sorted[0].change.timestamp {
      InsertSorts(entry, sorted[1..]);
      var rest := Insert(entry, sorted[1..]);
      forall k | 0 <= k < |rest| ensures sorted[0].change.timestamp <= rest[k].change.timestamp {
        InsertMembers(entry, sorted[1..], rest[k]);
      }
    }
  }

  lemma {:induction false} ByTimestampSorts(entries: seq<Entry>)
    ensures Sorted(ByTimestamp(entries))
  {
    if entries != [] {
      ByTimestampSorts(entries[1..]);
      InsertSorts(entries[0], ByTimestamp(entries[1..]));
    }
  }

  /** The pass order holds exactly the entries it was given. */
  lemma {:induction false} ByTimestampMembers(entries: seq<Entry>, entry: Entry)
    ensures entry in ByTimestamp(entries) <==> entry in entries
  {
    if entries != [] {
      ByTimestampMembers(entries[1..], entry);
      InsertMembers(entries[0], ByTimestamp(entries[1..]), entry);
    }
  }

  lemma {:induction false} InsertWhere(p: Entry -> bool, entry: Entry, sorted: seq<Entry>)
    requires Sorted(sorted)
    ensures Where(p, Insert(entry, sorted)) == if p(entry) then Insert(entry, Where(p, sorted)) else Where(p, sorted)
  {
    if sorted == [] || entry.change.timestamp <= sorted[0].change.timestamp {
      WhereOne(p, entry, sorted);
      if Where(p, sorted) != [] {
        WhereMembers(p, sorted, Where(p, sorted)[0]);
      }
    } else {
      InsertWhere(p, entry, sorted[1..]);
      WhereOne(p, sorted[0], Insert(entry, sorted[1..]));
      if p(sorted[0]) {
        assert ([sorted[0]] + Where(p, sorted[1..]))[1..] == Where(p, sorted[1..]);
      }
    }
  }

  /** Ordering a pass and looking at some of its entries commute. */
  lemma {:induction false} ByTimestampWhere(p: Entry -> bool, entries: seq<Entry>)
    ensures Where(p, ByTimestamp(entries)) == ByTimestamp(Where(p, entries))
  {
    if entries != [] {
      ByTimestampWhere(p, entries[1..]);
      ByTimestampSorts(entries[1..]);
      InsertWhere(p, entries[0], ByTimestamp(entries[1..]));
      if p(entries[0]) {
        assert ([entries[0]] + Where(p, entries[1..]))[1..] == Where(p, entries[1..]);
      }
    }
  }

  lemma {:induction false} SortedStays(entries: seq<Entry>)
    requires Sorted(entries)
    ensures ByTimestamp(entries) == entries
  {
    if entries != [] {
      SortedStays(entries[1..]);
    }
  }

  lemma {:induction false} InsertsCommute(a: Entry, b: Entry, sorted: seq<Entry>)
    requires a.change.timestamp < b.change.timestamp
    ensures Insert(a, Insert(b, sorted)) == Insert(b, Insert(a, sorted))
  {
    if sorted != [] && sorted[0].change.timestamp < a.change.timestamp {
      InsertsCommute(a, b, sorted[1..]);
    }
  }

  lemma {:induction false} InsertThenSort(entry: Entry, sorted: seq<Entry>, more: seq<Entry>)
    requires Sorted(sorted)
    ensures ByTimestamp(Insert(entry, sorted) + more) == Insert(entry, ByTimestamp(sorted + more))
  {
    if sorted == [] || entry.change.timestamp <= sorted[0].change.timestamp {
      assert ([entry] + sorted) + more == [entry] + (sorted + more);
    } else {
      InsertThenSort(entry, sorted[1..], more);
      var rest := Insert(entry, sorted[1..]) + more;
      assert Insert(entry, sorted) + more == [sorted[0]] + rest;
      assert sorted + more == [sorted[0]] + (sorted[1..] + more);
      InsertsCommute(sorted[0], entry, ByTimestamp(sorted[1..] + more));
    }
  }

  /** Sorting what was read in order, with more behind it, is sorting it all in table order. */
  lemma {:induction false} SortTwice(entries: seq<Entry>, more: seq<Entry>)
    ensures ByTimestamp(ByTimestamp(entries) + more) == ByTimestamp(entries + more)
  {
    if entries != [] {
      SortTwice(entries[1..], more);
      ByTimestampSorts(entries[1..]);
      InsertThenSort(entries[0], ByTimestamp(entries[1..]), more);
      assert entries + more == [entries[0]] + (entries[1..] + more);
    } else {
      assert entries + more == more && ByTimestamp(entries) + more == more;
    }
  }

  // ----- One record -----

  /** The changes of one record, in order. */
  function OfAnime(changes: seq<RemoteChange>, id: AnimeId): seq<RemoteChange> {
    if changes == [] then []
    else
      var last := changes[|changes| - 1];
      var before := OfAnime(changes[..|changes| - 1], id);
      if last.recordId == id then before + [last] else before
  }

  lemma {:induction false} OfAnimeConcat(a: seq<RemoteChange>, b: seq<RemoteChange>, id: AnimeId)
    ensures OfAnime(a + b, id) == OfAnime(a, id) + OfAnime(b, id)
  {
    if b == [] {
      assert a + b == a;
    } else {
      OfAnimeConcat(a, b[..|b| - 1], id);
      assert (a + b)[..|a + b| - 1] == a + b[..|b| - 1];
    }
  }

  lemma {:induction false} OfAnimeMembers(changes: seq<RemoteChange>, id: AnimeId, change: RemoteChange)
    ensures change in OfAnime(changes, id) <==> change in changes && change.recordId == id
  {
    if changes != [] {
      OfAnimeMembers(changes[..|changes| - 1], id, change);
      assert changes == changes[..|changes| - 1] + [changes[|changes| - 1]];
    }
  }

  lemma OfAnimeOne(change: RemoteChange, rest: seq<RemoteChange>, id: AnimeId)
    ensures OfAnime([change] + rest, id) == if change.recordId == id then [change] + OfAnime(rest, id) else OfAnime(rest, id)
  {
    OfAnimeConcat([change], rest, id);
    assert [change][..0] == [];
  }

  lemma {:induction false} OfAnimeIsWhere(entries: seq<Entry>, p: Entry -> bool, id: AnimeId)
    requires forall entry | entry in entries :: p(entry) <==> entry.change.recordId == id
    ensures OfAnime(ChangesOf(entries), id) == ChangesOf(Where(p, entries))
  {
    if entries != [] {
      OfAnimeIsWhere(entries[1..], p, id);
      assert ChangesOf(entries) == [entries[0].change] + ChangesOf(entries[1..]);
      OfAnimeOne(entries[0].change, ChangesOf(entries[1..]), id);
      assert entries[0] in entries;
    }
  }

  /** The changes of one record come in time order, and a delete shares its time with no other. */
  ghost predicate InTime(changes: seq<RemoteChange>) {
    forall i, j | 0 <= i < j < |changes| ::
      && changes[i].timestamp <= changes[j].timestamp
      && (changes[i].changeType == Delete || changes[j].changeType == Delete ==> changes[i].timestamp < changes[j].timestamp)
  }

  /** Every change of `a` is older than every change of `b`. */
  ghost predicate Precedes(a: seq<RemoteChange>, b: seq<RemoteChange>) {
    forall i, j | 0 <= i < |a| && 0 <= j < |b| :: a[i].timestamp < b[j].timestamp
  }

  lemma InTimeParts(a: seq<RemoteChange>, b: seq<RemoteChange>)
    ensures InTime(a + b) ==> InTime(a) && InTime(b)
    ensures InTime(a) && InTime(b) && Precedes(a, b) ==> InTime(a + b)
  {
    assert forall i | 0 <= i < |a| :: a[i] == (a + b)[i];
    assert forall i | 0 <= i < |b| :: b[i] == (a + b)[|a| + i];
  }

  lemma PrecedesParts(a: seq<RemoteChange>, b: seq<RemoteChange>, c: seq<RemoteChange>)
    ensures Precedes(a, b + c) <==> Precedes(a, b) && Precedes(a, c)
    ensures Precedes(a + b, c) <==> Precedes(a, c) && Precedes(b, c)
  {
    assert forall i | 0 <= i < |a| :: a[i] == (a + b)[i];
    assert forall i | 0 <= i < |b| :: b[i] == (a + b)[|a| + i] == (b + c)[i];
    assert forall i | 0 <= i < |c| :: c[i] == (b + c)[|b| + i];
  }

  lemma {:induction false} NoneWhere(p: Entry -> bool, entries: seq<Entry>)
    requires forall entry | entry in entries :: !p(entry)
    ensures Where(p, entries) == []
  {
    if entries != [] {
      NoneWhere(p, entries[1..]);
    }
  }

  lemma SortedInTime(entries: seq<Entry>)
    requires InTime(ChangesOf(entries))
    ensures ByTimestamp(entries) == entries
  {
    assert forall i | 0 <= i < |entries| :: entries[i].change == ChangesOf(entries)[i];
    SortedStays(entries);
  }

  lemma ChangesOfTagged(staged: seq<RemoteChange>, incoming: seq<RemoteChange>)
    ensures ChangesOf(StagedEntries(staged) + IncomingEntries(incoming)) == staged + incoming
    ensures ChangesOf(IncomingEntries(incoming)) == incoming
  {
  }

  /** The entries of one record in a pass are the staged ones, then the incoming ones, when they come in time order. */
  lemma PassEntriesOfAnime(staged: seq<RemoteChange>, incoming: seq<RemoteChange>, id: AnimeId)
    requires InTime(OfAnime(staged, id) + OfAnime(incoming, id))
    ensures OfAnime(ChangesOf(PassEntries(staged, incoming)), id) == OfAnime(staged, id) + OfAnime(incoming, id)
  {
    var p := (entry: Entry) => entry.change.recordId == id;
    var all := StagedEntries(staged) + IncomingEntries(incoming);
    OfAnimeIsWhere(PassEntries(staged, incoming), p, id);
    OfAnimeIsWhere(all, p, id);
    ByTimestampWhere(p, all);
    ChangesOfTagged(staged, incoming);
    OfAnimeConcat(staged, incoming, id);
    SortedInTime(Where(p, all));
  }

  predicate IncomingOf(entry: Entry, id: AnimeId) { entry.change.recordId == id && entry.staging.None? }

  /** The incoming changes of one record come in a pass in the order they came in the answer. */
  lemma PassIncomingOfAnime(staged: seq<RemoteChange>, incoming: seq<RemoteChange>, id: AnimeId)
    requires InTime(OfAnime(incoming, id))
    ensures ChangesOf(Where(entry => IncomingOf(entry, id), PassEntries(staged, incoming))) == OfAnime(incoming, id)
  {
    var p := (entry: Entry) => IncomingOf(entry, id);
    var all := StagedEntries(staged) + IncomingEntries(incoming);
    ByTimestampWhere(p, all);
    WhereConcat(p, StagedEntries(staged), IncomingEntries(incoming));
    NoneWhere(p, StagedEntries(staged));
    OfAnimeIsWhere(IncomingEntries(incoming), p, id);
    ChangesOfTagged(staged, incoming);
    SortedInTime(Where(p, IncomingEntries(incoming)));
    assert Where(p, all) == Where(p, IncomingEntries(incoming));
  }
}
