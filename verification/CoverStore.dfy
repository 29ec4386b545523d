/** The covers on a device: hydrating, sweeping and settling, cut off at any file operation. */
module CoverStore {
  import opened Basics
  import opened CoverNames
  import opened CoverSweep

  function EntryOf(manifest: Manifest, animeId: Name): Option<Entry> {
    if animeId in manifest then Some(manifest[animeId]) else None
  }

  /** Every file a manifest names is on disk. */
  predicate Present(manifest: Manifest, covers: set<Name>) { Referenced(manifest) <= covers }

  predicate TokensDashFree(result: CoverResult) { result.ImageAnswer? ==> DashFree(result.image) }

  /** The entry is an answer folded into the one the pass began with; a new image is on disk under the anime's own name. */
  ghost predicate FoldedFrom(previous: Option<Entry>, next: Entry, source: Source, covers: set<Name>) {
    exists result, now: nat, written: nat :: FoldedBy(previous, next, source, covers, result, now, written)
  }

  predicate FoldedBy(previous: Option<Entry>, next: Entry, source: Source, covers: set<Name>, result: CoverResult, now: nat,
                     written: nat)
  {
    var file := if result.ImageAnswer? then Some(BuildCoverFileName(source.animeId, result.image, Decimal(written)))
                else FileOf(previous);
    && !result.UnauthorizedAnswer?
    && next == ResolveCoverManifestEntry(previous, result, now, file, source.sourceKey)
    && (result.ImageAnswer? ==> file.value in covers)
  }

  /** What the worker of one target comes to: an answer, a stop of the whole pass, or a failure. */
  datatype WorkerEnd = Answer(result: CoverResult) | StopSweep | Fails

  /** The files a settled pass deletes: those of dropped entries, and those on disk nothing references. */
  function Orphans(swept: Manifest, active: set<Name>, covers: set<Name>): set<Name> {
    PrunedNames(swept, active) + (covers - Referenced(Pruned(swept, active)))
  }

  /** Deleting the orphans spares every referenced file exactly when no dropped entry's file is also a kept one's. */
  lemma DeletionIsSafeExactlyWhen(swept: Manifest, active: set<Name>, covers: set<Name>)
    ensures covers * Referenced(Pruned(swept, active)) <= covers - Orphans(swept, active, covers)
      <==> PrunedNames(swept, active) * Referenced(Pruned(swept, active)) * covers == {}
  {
    var dropped, kept, orphans := PrunedNames(swept, active), Referenced(Pruned(swept, active)), Orphans(swept, active, covers);
    hide PrunedNames, Referenced;
    assert forall name | name in covers * kept :: name in orphans <==> name in dropped;
    assert forall name | name in covers * kept && name in dropped :: name in dropped * kept * covers;
  }

  /** A pass under way: each answered target is folded, every other entry is the one it began with. */
  ghost predicate Folding(entries: Manifest, swept: Manifest, targets: seq<Source>, covers: set<Name>, over: set<nat>) {
    && (forall i | i in over ::
          i < |targets| && targets[i].animeId in swept
          && FoldedFrom(EntryOf(entries, targets[i].animeId), swept[targets[i].animeId], targets[i], covers))
    && forall animeId ::
         EntryOf(swept, animeId) == EntryOf(entries, animeId)
         || exists i | i in over :: i < |targets| && targets[i].animeId == animeId
  }

  lemma FoldingWithMoreCovers(previous: Option<Entry>, next: Entry, source: Source, covers: set<Name>, more: set<Name>)
    requires FoldedFrom(previous, next, source, covers) && covers <= more
    ensures FoldedFrom(previous, next, source, more)
  {
    var result, now: nat, written: nat :| FoldedBy(previous, next, source, covers, result, now, written);
    assert FoldedBy(previous, next, source, more, result, now, written);
  }

  lemma FoldOne(entries: Manifest, swept: Manifest, targets: seq<Source>, covers: set<Name>, more: set<Name>,
                over: set<nat>, i: nat, result: CoverResult, now: nat, written: nat, entry: Entry)
    requires forall k, j | 0 <= k < j < |targets| :: targets[k].animeId != targets[j].animeId
    requires Folding(entries, swept, targets, covers, over) && covers <= more && i < |targets| && i !in over
    requires FoldedBy(EntryOf(entries, targets[i].animeId), entry, targets[i], more, result, now, written)
    ensures Folding(entries, swept[targets[i].animeId := entry], targets, more, over + {i})
  {
    var swept' := swept[targets[i].animeId := entry];
    forall k | k in over + {i}
      ensures k < |targets| && targets[k].animeId in swept'
      ensures FoldedFrom(EntryOf(entries, targets[k].animeId), swept'[targets[k].animeId], targets[k], more)
    {
      if k != i {
        FoldingWithMoreCovers(EntryOf(entries, targets[k].animeId), swept[targets[k].animeId], targets[k], covers, more);
      }
    }
    assert i in over + {i};
  }

  /** A folded entry names a file of its own anime, and one that is on disk, if the one before it did. */
  lemma FoldedFilesAreSound(swept: Manifest, covers: set<Name>, source: Source, result: CoverResult, now: nat, written: nat,
                            previous: Option<Entry>, entry: Entry)
    requires FoldedBy(previous, entry, source, covers, result, now, written)
    requires FileOf(previous).Some? ==> EntryOf(swept, source.animeId) == previous
    ensures Owned(swept) && TokensDashFree(result) ==> Owned(swept[source.animeId := entry])
    ensures Present(swept, covers) ==> Present(swept[source.animeId := entry], covers)
  {
    if TokensDashFree(result) && result.ImageAnswer? {
      FetchedNamesAreOwned(source.animeId, result.image, written);
    }
    assert entry.fileName.Some? && !result.ImageAnswer? ==> entry.fileName == FileOf(previous);
  }

  /** A target not folded yet still has the entry it began with. */
  lemma NotOverYet(entries: Manifest, swept: Manifest, targets: seq<Source>, covers: set<Name>, over: set<nat>, i: nat)
    requires forall k, j | 0 <= k < j < |targets| :: targets[k].animeId != targets[j].animeId
    requires Folding(entries, swept, targets, covers, over) && i < |targets| && i !in over
    ensures EntryOf(swept, targets[i].animeId) == EntryOf(entries, targets[i].animeId)
  {
    assert forall k | k in over && k < |targets| :: targets[k].animeId != targets[i].animeId;
  }

  /** How far a pass has come: what it folded, what is in flight, and that nothing was lost on the way. */
  datatype Pass = Pass(swept: Manifest, covers: set<Name>, inFlight: map<nat, Option<Entry>>, next: nat, answered: bool,
                       completed: bool)

  /** Nothing was lost: names stay owned, files present, and only answers change the entries. */
  ghost predicate KeptSound(entries: Manifest, swept: Manifest, start: set<Name>, covers: set<Name>, answered: bool,
                            clean: bool)
  {
    && start <= covers
    && (clean && Owned(entries) ==> Owned(swept))
    && (Present(entries, start) ==> Present(swept, covers))
    && (!answered ==> swept == entries)
    && entries.Keys <= swept.Keys
  }

  /** The targets taken are in flight or over, and each in flight carries the entry its anime began with. */
  ghost predicate Flights(entries: Manifest, targets: seq<Source>, inFlight: map<nat, Option<Entry>>, next: nat,
                          completed: bool, over: set<nat>)
  {
    && next <= |targets| && |inFlight| <= 2
    && (forall i | i in inFlight :: i < next && inFlight[i] == EntryOf(entries, targets[i].animeId))
    && (forall i | i in over :: i < next && i !in inFlight)
    && (completed ==> forall i: nat | i < next :: i in inFlight || i in over)
  }

  ghost predicate Sweeping(entries: Manifest, targets: seq<Source>, start: set<Name>, pass: Pass, over: set<nat>, clean: bool) {
    && KeptSound(entries, pass.swept, start, pass.covers, pass.answered, clean)
    && Flights(entries, targets, pass.inFlight, pass.next, pass.completed, over)
    && Folding(entries, pass.swept, targets, pass.covers, over)
  }

  function TakeNext(pass: Pass, targets: seq<Source>): Pass
    requires pass.next < |targets|
  {
    pass.(inFlight := pass.inFlight[pass.next := EntryOf(pass.swept, targets[pass.next].animeId)], next := pass.next + 1)
  }

  function Land(pass: Pass, i: nat): Pass { pass.(inFlight := pass.inFlight - {i}) }

  lemma SweepTakes(entries: Manifest, targets: seq<Source>, start: set<Name>, pass: Pass, over: set<nat>, clean: bool)
    requires forall k, j | 0 <= k < j < |targets| :: targets[k].animeId != targets[j].animeId
    requires Sweeping(entries, targets, start, pass, over, clean)
    requires pass.next < |targets| && |pass.inFlight| < COVER_SWEEP_CONCURRENCY
    ensures Sweeping(entries, targets, start, TakeNext(pass, targets), over, clean)
    ensures |TakeNext(pass, targets).inFlight| == |pass.inFlight| + 1
  {
    hide Folding, KeptSound, Flights;
    FlightsTake(entries, targets, pass.inFlight, pass.next, pass.completed, over);
    assert pass.next !in over && pass.next < |targets|;
    NotOverYet(entries, pass.swept, targets, pass.covers, over, pass.next);
  }

  lemma FlightsTake(entries: Manifest, targets: seq<Source>, inFlight: map<nat, Option<Entry>>, next: nat,
                    completed: bool, over: set<nat>)
    requires Flights(entries, targets, inFlight, next, completed, over)
    requires next < |targets| && |inFlight| < COVER_SWEEP_CONCURRENCY
    ensures next !in over
    ensures var taken := inFlight[next := EntryOf(entries, targets[next].animeId)];
      Flights(entries, targets, taken, next + 1, completed, over) && |taken| == |inFlight| + 1
  {
    hide EntryOf;
    OneMoreKey(inFlight, next, EntryOf(entries, targets[next].animeId));
  }

  lemma OneMoreKey(inFlight: map<nat, Option<Entry>>, i: nat, previous: Option<Entry>)
    requires i !in inFlight
    ensures |inFlight[i := previous]| == |inFlight| + 1
  {
    assert inFlight[i := previous].Keys == inFlight.Keys + {i};
  }

  lemma SweepStops(entries: Manifest, targets: seq<Source>, start: set<Name>, pass: Pass, over: set<nat>, clean: bool, i: nat)
    requires Sweeping(entries, targets, start, pass, over, clean) && i in pass.inFlight
    ensures Sweeping(entries, targets, start, Land(pass, i).(completed := false), over, clean)
    ensures |Land(pass, i).inFlight| == |pass.inFlight| - 1
  {
    hide Folding, KeptSound;
    assert Land(pass, i).inFlight.Keys == pass.inFlight.Keys - {i};
  }

  lemma SweepAnswers(entries: Manifest, targets: seq<Source>, start: set<Name>, pass: Pass, over: set<nat>, clean: bool,
                     i: nat, covers: set<Name>, result: CoverResult, now: nat, written: nat, entry: Entry)
    requires forall k, j | 0 <= k < j < |targets| :: targets[k].animeId != targets[j].animeId
    requires Sweeping(entries, targets, start, pass, over, clean) && i in pass.inFlight && pass.covers <= covers
    requires FoldedBy(pass.inFlight[i], entry, targets[i], covers, result, now, written)
    ensures Sweeping(entries, targets, start,
      Land(pass, i).(swept := pass.swept[targets[i].animeId := entry], covers := covers, answered := true), over + {i},
      clean && TokensDashFree(result))
  {
    hide Folding, Owned, Present, FoldedBy, EntryOf, TokensDashFree, KeptSound, Flights;
    FlightsIn(entries, targets, pass.inFlight, pass.next, pass.completed, over, i);
    NotOverYet(entries, pass.swept, targets, pass.covers, over, i);
    FoldOne(entries, pass.swept, targets, pass.covers, covers, over, i, result, now, written, entry);
    FoldedFilesAreSound(pass.swept, covers, targets[i], result, now, written, pass.inFlight[i], entry);
    PresentWithMore(pass.swept, pass.covers, covers);
    AnswerKeepsSound(entries, pass.swept, start, pass.covers, pass.answered, clean, covers, targets[i].animeId, entry, result);
    FlightsLand(entries, targets, pass.inFlight, pass.next, pass.completed, over, i);
  }

  lemma FlightsIn(entries: Manifest, targets: seq<Source>, inFlight: map<nat, Option<Entry>>, next: nat, completed: bool,
                  over: set<nat>, i: nat)
    requires Flights(entries, targets, inFlight, next, completed, over) && i in inFlight
    ensures i < |targets| && i !in over && inFlight[i] == EntryOf(entries, targets[i].animeId)
  {
  }

  lemma FlightsLand(entries: Manifest, targets: seq<Source>, inFlight: map<nat, Option<Entry>>, next: nat, completed: bool,
                    over: set<nat>, i: nat)
    requires Flights(entries, targets, inFlight, next, completed, over) && i in inFlight
    ensures Flights(entries, targets, inFlight - {i}, next, completed, over + {i})
  {
    hide EntryOf;
    assert (inFlight - {i}).Keys == inFlight.Keys - {i};
  }

  lemma AnswerKeepsSound(entries: Manifest, swept: Manifest, start: set<Name>, covers: set<Name>, answered: bool, clean: bool,
                         more: set<Name>, animeId: Name, entry: Entry, result: CoverResult)
    requires KeptSound(entries, swept, start, covers, answered, clean) && covers <= more
    requires Owned(swept) && TokensDashFree(result) ==> Owned(swept[animeId := entry])
    requires Present(swept, covers) ==> Present(swept[animeId := entry], more)
    ensures KeptSound(entries, swept[animeId := entry], start, more, true, clean && TokensDashFree(result))
  {
    hide Owned, Present, TokensDashFree;
  }

  lemma PresentWithMore(manifest: Manifest, covers: set<Name>, more: set<Name>)
    requires covers <= more
    ensures Present(manifest, covers) ==> Present(manifest, more)
  {
  }

  /** What hydrating owes the entries it found: a file on disk keeps its entry, a vanished one is dropped and due at once. */
  predicate KeepsCovers(before: Manifest, after: Manifest, covers: set<Name>) {
    && before.Keys <= after.Keys
    && forall animeId | animeId in before && before[animeId].fileName.Some? ::
         after[animeId] == if before[animeId].fileName.value in covers then before[animeId]
                           else before[animeId].(fileName := None, nextAttemptAt := 0)
  }

  /** No file the manifest names is missing that was there before. */
  predicate NamedFilesStay(manifest: Manifest, before: set<Name>, after: set<Name>) {
    forall animeId | animeId in manifest && manifest[animeId].fileName.Some? && manifest[animeId].fileName.value in before ::
      manifest[animeId].fileName.value in after
  }

  method ReadClock() returns (now: nat) {
    var reading: int := *;
    now := if reading < 0 then 0 else reading;
  }

  class Covers {
    var disk: Disk
    var covers: set<Name>

    /** Every etag named a file so far had no dash. */
    ghost var dashFree: bool

    ghost predicate Valid()
      reads this
    {
      dashFree ==> DiskOwned(disk)
    }

    constructor ()
      ensures Valid() && disk == Disk(Missing, Missing) && covers == {} && dashFree
    {
      disk, covers, dashFree := Disk(Missing, Missing), {}, true;
    }

    /** Persists a manifest through the temp file; the process may be killed between two file operations. */
    method WriteCoverManifest(manifest: Manifest, stopAfter: nat) returns (done: bool)
      modifies `disk
      ensures done <==> stopAfter >= WRITE_STEPS
      ensures disk == WriteStep(old(disk), manifest, if done then WRITE_STEPS else stopAfter)
    {
      if stopAfter == 0 {
        return false;
      }
      disk := disk.(temp := Missing);
      if stopAfter == 1 {
        return false;
      }
      disk := disk.(temp := Partial);
      if stopAfter == 2 {
        return false;
      }
      disk := disk.(temp := Whole(manifest));
      if stopAfter == 3 {
        return false;
      }
      disk := disk.(manifest := Missing);
      if stopAfter == 4 {
        return false;
      }
      disk := Disk(disk.temp, Missing);
      return true;
    }

    /** Adopts what the inbox holds and drops the names of files that vanished, before anything is asked of the bridge. */
    method HydrateCoverUris(inbox: seq<InboxEntry>, stopAfter: nat) returns (done: bool)
      requires Valid()
      modifies this
      ensures Valid() && old(covers) <= covers
      ensures done ==> Present(ReadManifest(disk), covers)
      ensures done ==> KeepsCovers(ReadManifest(old(disk)), ReadManifest(disk), covers)
      ensures !done ==> stopAfter < WRITE_STEPS
    {
      var manifest := ReadManifest(disk);
      var adopt, discard := PlanCoverInboxAdoption(manifest, inbox);
      var entries, changed := manifest, false;
      for i := 0 to |adopt|
        invariant dashFree ==> old(dashFree) && Owned(entries)
        invariant old(covers) <= covers && disk == old(disk)
        invariant entries == manifest || changed
        invariant forall animeId | animeId in manifest && manifest[animeId].fileName.Some? ::
          animeId in entries && entries[animeId] == manifest[animeId]
        invariant manifest.Keys <= entries.Keys
      {
        var moved: bool := *;
        if moved {
          assert adopt[i] in adopt;
          dashFree := dashFree && DashFree(adopt[i].inboxEntry.etag);
          if DashFree(adopt[i].inboxEntry.etag) {
            AdoptionsAreOwned(adopt[i].inboxEntry);
          }
          covers := covers + {adopt[i].fileName};
          entries := entries[adopt[i].inboxEntry.animeId := adopt[i].manifestEntry];
          changed := true;
        }
      }
      var checked := map animeId | animeId in entries ::
        if entries[animeId].fileName.Some? && entries[animeId].fileName.value !in covers
        then entries[animeId].(fileName := None, nextAttemptAt := 0)
        else entries[animeId];
      if !changed && checked == entries {
        assert checked == ReadManifest(disk);
        return true;
      }
      done := WriteCoverManifest(checked, stopAfter);
      if dashFree {
        WritingKeepsDiskOwned(old(disk), checked, if done then WRITE_STEPS else stopAfter);
      }
    }

    /**
     * Asks for every target, a few at a time, and folds each answer into the entries. Whatever order the answers come
     * in, each is folded into the entry its anime began the pass with; nothing is deleted.
     */
    method SweepCovers(entries: Manifest, targets: seq<Source>) returns (swept: Manifest, answered: bool, completed: bool)
      requires forall i, j | 0 <= i < j < |targets| :: targets[i].animeId != targets[j].animeId
      modifies `covers, `dashFree
      ensures old(covers) <= covers && (dashFree ==> old(dashFree))
      ensures dashFree && Owned(entries) ==> Owned(swept)
      ensures Present(entries, old(covers)) ==> Present(swept, covers)
      ensures !answered ==> swept == entries
      ensures entries.Keys <= swept.Keys
      ensures forall animeId | animeId in swept ::
        EntryOf(entries, animeId) == Some(swept[animeId])
        || exists i | 0 <= i < |targets| ::
             targets[i].animeId == animeId && FoldedFrom(EntryOf(entries, animeId), swept[animeId], targets[i], covers)
      ensures completed ==> forall i | 0 <= i < |targets| ::
        targets[i].animeId in swept
        && FoldedFrom(EntryOf(entries, targets[i].animeId), swept[targets[i].animeId], targets[i], covers)
    {
      hide Sweeping, Flights, Folding, KeptSound, Owned, Present, FoldedBy, FoldedFrom, ResolveCoverManifestEntry;
      var pass := Pass(entries, covers, map[], 0, false, true);
      ghost var over: set<nat>, clean := {}, true;
      SweepStarts(entries, targets, covers);
      while pass.inFlight != map[] || (pass.completed && pass.next < |targets|)
        invariant Sweeping(entries, targets, old(covers), pass, over, clean)
        invariant pass.next <= |targets| && pass.covers == covers
        invariant forall i | i in pass.inFlight :: i < |targets|
        invariant dashFree == (old(dashFree) && clean)
        decreases 2 * (|targets| - pass.next) + |pass.inFlight|
      {
        var startMore: bool := *;
        if pass.completed && pass.next < |targets|
           && (pass.inFlight == map[] || (startMore && |pass.inFlight| < COVER_SWEEP_CONCURRENCY)) {
          SweepTakes(entries, targets, old(covers), pass, over, clean);
          pass := TakeNext(pass, targets);
        } else {
          var i :| i in pass.inFlight;
          SweepStops(entries, targets, old(covers), pass, over, clean, i);
          var end: WorkerEnd := *;
          if end.Answer? && !end.result.UnauthorizedAnswer? {
            var previous := pass.inFlight[i];
            var written := ReadClock();
            var file := FileOf(previous);
            if end.result.ImageAnswer? {
              file := Some(BuildCoverFileName(targets[i].animeId, end.result.image, Decimal(written)));
              covers := covers + {file.value};
            }
            var now := ReadClock();
            var entry := ResolveCoverManifestEntry(previous, end.result, now, file, targets[i].sourceKey);
            IsFoldedBy(previous, targets[i], covers, end.result, now, written, file);
            SweepAnswers(entries, targets, old(covers), pass, over, clean, i, covers, end.result, now, written, entry);
            clean := clean && TokensDashFree(end.result);
            dashFree := dashFree && TokensDashFree(end.result);
            pass := Land(pass, i).(swept := pass.swept[targets[i].animeId := entry], covers := covers, answered := true);
            over := over + {i};
          } else {
            pass := Land(pass, i).(completed := false);
          }
        }
      }
      SweepEnds(entries, targets, old(covers), pass, over, clean);
      swept, answered, completed := pass.swept, pass.answered, pass.completed;
    }

    /** Deletes some files, one by one in any order, until the process is killed or none is left. */
    method DeleteCoverFiles(fileNames: set<Name>, stopAfter: nat) returns (done: bool)
      modifies `covers
      ensures old(covers) - fileNames <= covers <= old(covers)
      ensures done ==> covers == old(covers) - fileNames
    {
      var left, budget := fileNames, stopAfter;
      while left != {}
        invariant left <= fileNames
        invariant old(covers) - fileNames <= covers <= old(covers)
        invariant covers == old(covers) - (fileNames - left)
        decreases |left|
      {
        if budget == 0 {
          return false;
        }
        var fileName :| fileName in left;
        covers := covers - {fileName};
        left, budget := left - {fileName}, budget - 1;
      }
      return true;
    }

    /**
     * Settles one pass, only as far as the bridge confirmed it, and possibly cut off at any file operation: a pass it did
     * not answer changes nothing, one cut off deletes nothing, and a whole one deletes what its persisted manifest no
     * longer references. Wherever it stops, every file the readable manifest references is still on disk if it was.
     */
    method SettleCoverSweep(swept: Manifest, active: set<Name>, answered: bool, completed: bool, stopAfter: nat)
      returns (done: bool)
      requires Valid() && (dashFree ==> Owned(swept))
      modifies `disk, `covers
      ensures Valid() && covers <= old(covers)
      ensures !answered ==> disk == old(disk) && done
      ensures !answered || !completed ==> covers == old(covers)
      ensures answered ==>
        disk == WriteStep(old(disk), if completed then Pruned(swept, active) else swept,
                          if stopAfter < WRITE_STEPS then stopAfter else WRITE_STEPS)
      ensures dashFree ==> old(covers) * Referenced(ReadManifest(disk)) <= covers
      ensures dashFree ==> NamedFilesStay(ReadManifest(disk), old(covers), covers)
      ensures done && answered && completed ==> covers == old(covers) - Orphans(swept, active, old(covers))
      ensures done && answered && completed && dashFree ==> covers == old(covers) * Referenced(ReadManifest(disk))
    {
      if !answered {
        return true;
      }
      if !completed {
        done := WriteCoverManifest(swept, stopAfter);
        if dashFree {
          WritingKeepsDiskOwned(old(disk), swept, if done then WRITE_STEPS else stopAfter);
        }
        return;
      }
      var final, dropped := PruneInactiveCoverEntries(swept, active);
      if dashFree {
        PrunedNamesAreUnreferenced(swept, active);
        WritingKeepsDiskOwned(old(disk), final, if stopAfter < WRITE_STEPS then stopAfter else WRITE_STEPS);
      }
      DeletionIsSafeExactlyWhen(swept, active, covers);
      hide Owned, PrunedNames, Pruned, Referenced;
      done := WriteCoverManifest(final, stopAfter);
      if !done {
        return;
      }
      var orphans := dropped + (covers - Referenced(final));
      assert orphans == Orphans(swept, active, covers);
      done := DeleteCoverFiles(orphans, stopAfter - WRITE_STEPS);
    }

    /**
     * One pass of the cover pipeline. Whatever the bridge answers and wherever the process is killed, a file referenced
     * by the manifest that can be read afterwards is still on disk if it was; and unless the bridge answered the whole
     * pass, no file is deleted at all.
     */
    method ExecuteCoverSweep(inbox: seq<InboxEntry>, sources: seq<Source>, paired: bool, force: bool, hydrateStop: nat,
                             settleStop: nat)
      returns (wholePass: bool)
      requires Valid()
      requires forall i, j | 0 <= i < j < |sources| :: sources[i].animeId != sources[j].animeId
      modifies this
      ensures Valid()
      ensures dashFree ==> old(covers) * Referenced(ReadManifest(disk)) <= covers
      ensures dashFree ==> NamedFilesStay(ReadManifest(disk), old(covers), covers)
      ensures !wholePass ==> old(covers) <= covers
    {
      var hydrated := HydrateCoverUris(inbox, hydrateStop);
      if !hydrated || !paired {
        return false;
      }
      ghost var hydratedCovers := covers;
      var manifest := ReadManifest(disk);
      var now := ReadClock();
      var targets := SelectCoverSweepTargets(sources, manifest, now, force);
      var swept, answered, completed := SweepCovers(manifest, targets);
      assert old(covers) <= hydratedCovers <= covers;
      var done := SettleCoverSweep(swept, set i | 0 <= i < |sources| :: sources[i].animeId, answered, completed, settleStop);
      return answered && completed;
    }
  }

  lemma IsFoldedBy(previous: Option<Entry>, source: Source, covers: set<Name>, result: CoverResult, now: nat, written: nat,
                   file: Option<Name>)
    requires !result.UnauthorizedAnswer?
    requires file == if result.ImageAnswer? then Some(BuildCoverFileName(source.animeId, result.image, Decimal(written)))
                     else FileOf(previous)
    requires result.ImageAnswer? ==> file.value in covers
    ensures FoldedBy(previous, ResolveCoverManifestEntry(previous, result, now, file, source.sourceKey), source, covers,
                     result, now, written)
  {
  }

  lemma SweepStarts(entries: Manifest, targets: seq<Source>, start: set<Name>)
    ensures Sweeping(entries, targets, start, Pass(entries, start, map[], 0, false, true), {}, true)
  {
  }

  lemma SweepEnds(entries: Manifest, targets: seq<Source>, start: set<Name>, pass: Pass, over: set<nat>, clean: bool)
    requires Sweeping(entries, targets, start, pass, over, clean)
    requires pass.inFlight == map[] && (pass.completed ==> pass.next == |targets|)
    ensures start <= pass.covers
    ensures clean && Owned(entries) ==> Owned(pass.swept)
    ensures Present(entries, start) ==> Present(pass.swept, pass.covers)
    ensures !pass.answered ==> pass.swept == entries
    ensures entries.Keys <= pass.swept.Keys
    ensures forall animeId | animeId in pass.swept ::
      EntryOf(entries, animeId) == Some(pass.swept[animeId])
      || exists i | 0 <= i < |targets| ::
           targets[i].animeId == animeId
           && FoldedFrom(EntryOf(entries, animeId), pass.swept[animeId], targets[i], pass.covers)
    ensures pass.completed ==> forall i | 0 <= i < |targets| ::
      targets[i].animeId in pass.swept
      && FoldedFrom(EntryOf(entries, targets[i].animeId), pass.swept[targets[i].animeId], targets[i], pass.covers)
  {
    hide Owned, Present, FoldedFrom;
    forall animeId | animeId in pass.swept && EntryOf(entries, animeId) != Some(pass.swept[animeId])
      ensures exists i | 0 <= i < |targets| ::
        targets[i].animeId == animeId
        && FoldedFrom(EntryOf(entries, animeId), pass.swept[animeId], targets[i], pass.covers)
    {
      assert EntryOf(pass.swept, animeId) != EntryOf(entries, animeId);
      var i :| i in over && i < |targets| && targets[i].animeId == animeId;
    }
  }
}
