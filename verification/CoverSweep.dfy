/** The cover sweep: manifest entries folded from concurrent answers, and deletion only behind a persisted manifest. */
module CoverSweep {
  import opened Basics
  import opened CoverNames

  datatype Status = Image | Absent | Unknown | Transient

  /** The normalized cover source of an anime; `None` is no cover. */
  type SourceKey = Option<Name>

  /** One anime's bookkeeping; an entry written before source keys existed carries none. */
  datatype Entry = Entry(
    status: Status,
    fileName: Option<Name>,
    etag: Option<Name>,
    checkedAt: Option<int>,
    nextAttemptAt: int,
    failureCount: nat,
    sourceKey: Option<SourceKey>)

  type Manifest = map<Name, Entry>

  datatype CoverResult =
    | ImageAnswer(image: Option<Name>)
    | NotModifiedAnswer(current: Option<Name>)
    | AbsentAnswer
    | UnknownAnswer
    | TransientAnswer(retryAfterMs: Option<int>)
    | UnauthorizedAnswer

  const COVER_REVALIDATE_MS := 24 * 60 * 60 * 1000
  const COVER_UNKNOWN_RECHECK_MS := 24 * 60 * 60 * 1000
  const COVER_TRANSIENT_BASE_DELAY_MS := 15 * 60 * 1000
  const COVER_TRANSIENT_MAX_DELAY_MS := 6 * 60 * 60 * 1000
  const COVER_SWEEP_CONCURRENCY: nat := 2

  // ----- One entry -----

  function TwoToThe(exponent: nat): nat { if exponent == 0 then 1 else 2 * TwoToThe(exponent - 1) }

  function ComputeTransientDelayMs(failureCount: nat, retryAfterMs: Option<int>): int {
    if retryAfterMs.Some? then retryAfterMs.value
    else
      var backoff := COVER_TRANSIENT_BASE_DELAY_MS * TwoToThe(if failureCount == 0 then 0 else failureCount - 1);
      if backoff < COVER_TRANSIENT_MAX_DELAY_MS then backoff else COVER_TRANSIENT_MAX_DELAY_MS
  }

  function TransientEntry(previous: Option<Entry>, retryAfterMs: Option<int>, now: int, sourceKey: SourceKey): Entry {
    var known := if previous.Some? then previous.value else Entry(Transient, None, None, None, 0, 0, None);
    known.(nextAttemptAt := now + ComputeTransientDelayMs(known.failureCount + 1, retryAfterMs),
           failureCount := known.failureCount + 1, sourceKey := Some(sourceKey))
  }

  function FileOf(entry: Option<Entry>): Option<Name> { if entry.Some? then entry.value.fileName else None }

  function EtagOf(entry: Option<Entry>): Option<Name> { if entry.Some? then entry.value.etag else None }

  /** Folds one answer into an anime's entry. */
  function ResolveCoverManifestEntry(previous: Option<Entry>, result: CoverResult, now: int, newFileName: Option<Name>,
                                     sourceKey: SourceKey): Entry
  {
    match result
    case ImageAnswer(etag) =>
      if newFileName.None? then TransientEntry(previous, None, now, sourceKey)
      else Entry(Image, newFileName, etag, Some(now), now + COVER_REVALIDATE_MS, 0, Some(sourceKey))
    case NotModifiedAnswer(etag) =>
      if FileOf(previous).None?
      then Entry(Transient, None, None, if previous.Some? then previous.value.checkedAt else None, now, 0, Some(sourceKey))
      else Entry(Image, FileOf(previous), if etag.Some? then etag else EtagOf(previous), Some(now),
                 now + COVER_REVALIDATE_MS, 0, Some(sourceKey))
    case AbsentAnswer =>
      var same := previous.Some? && previous.value.sourceKey == Some(sourceKey);
      var file := if same then FileOf(previous) else None;
      Entry(Absent, file, if file.Some? then EtagOf(previous) else None, Some(now), now + COVER_REVALIDATE_MS, 0,
            Some(sourceKey))
    case UnknownAnswer =>
      Entry(Unknown, FileOf(previous), EtagOf(previous), Some(now), now + COVER_UNKNOWN_RECHECK_MS, 0, Some(sourceKey))
    case TransientAnswer(retryAfterMs) => TransientEntry(previous, retryAfterMs, now, sourceKey)
    case UnauthorizedAnswer => TransientEntry(previous, None, now, sourceKey)
  }

  /** A cover in doubt: tried again later and later, with what was known of it. */
  predicate IsTriedAgain(previous: Option<Entry>, next: Entry, retryAfterMs: Option<int>, now: int) {
    var failures := if previous.Some? then previous.value.failureCount + 1 else 1;
    && next.failureCount == failures && next.nextAttemptAt == now + ComputeTransientDelayMs(failures, retryAfterMs)
    && next.fileName == FileOf(previous) && next.etag == EtagOf(previous)
    && (previous.Some? ==> next.status == previous.value.status && next.checkedAt == previous.value.checkedAt)
    && (previous.None? ==> next.status == Transient && next.checkedAt == None)
  }

  /** An answer that settles a cover for a day. */
  predicate IsSettled(next: Entry, status: Status, fileName: Option<Name>, etag: Option<Name>, now: int) {
    && next.status == status && next.fileName == fileName && next.etag == etag
    && next.checkedAt == Some(now) && next.nextAttemptAt == now + 86_400_000 && next.failureCount == 0
  }

  /** What each answer leaves in the entry, field by field; its source is always the one asked for. */
  lemma AnswersAreRecorded(previous: Option<Entry>, result: CoverResult, now: int, newFileName: Option<Name>,
                           sourceKey: SourceKey)
    ensures var next := ResolveCoverManifestEntry(previous, result, now, newFileName, sourceKey);
      var file, etag := FileOf(previous), EtagOf(previous);
      && next.sourceKey == Some(sourceKey)
      && (match result
          case ImageAnswer(newEtag) =>
            if newFileName.None? then IsTriedAgain(previous, next, None, now)
            else IsSettled(next, Image, newFileName, newEtag, now)
          case NotModifiedAnswer(newEtag) =>
            if file.None? then next.status == Transient && next.nextAttemptAt == now && next.fileName == None && next.etag == None
            else IsSettled(next, Image, file, if newEtag.Some? then newEtag else etag, now)
          case AbsentAnswer =>
            if previous.Some? && previous.value.sourceKey == Some(sourceKey)
            then IsSettled(next, Absent, file, if file.Some? then etag else None, now)
            else IsSettled(next, Absent, None, None, now)
          case UnknownAnswer => IsSettled(next, Unknown, file, etag, now)
          case TransientAnswer(retryAfterMs) => IsTriedAgain(previous, next, retryAfterMs, now)
          case UnauthorizedAnswer => IsTriedAgain(previous, next, None, now))
  {
    match result case _ =>
  }

  /**
   * A cover never stops loading but for a changed source: an anime with a file loses it exactly when the bridge has none
   * to serve and the source it was resolved against is not the one asked for. Otherwise it keeps it, or has the new one.
   */
  lemma CoversAreLostExactlyWhen(previous: Entry, result: CoverResult, now: int, newFileName: Option<Name>,
                                 sourceKey: SourceKey)
    requires previous.fileName.Some?
    ensures var next := ResolveCoverManifestEntry(Some(previous), result, now, newFileName, sourceKey);
      && (next.fileName.None? <==> result.AbsentAnswer? && previous.sourceKey != Some(sourceKey))
      && (next.fileName.Some? ==>
            next.fileName == if result.ImageAnswer? && newFileName.Some? then newFileName else previous.fileName)
      && next.sourceKey == Some(sourceKey)
  {
  }

  /** One answer as a pass folds it in: when, and the file written for a new image. */
  datatype Answered = Answered(result: CoverResult, now: int, newFileName: Option<Name>)

  /** An anime's entry after a run of answers about one source, over any number of passes. */
  function AfterAnswers(entry: Entry, answers: seq<Answered>, sourceKey: SourceKey): Entry {
    if answers == [] then entry
    else
      var last := answers[|answers| - 1];
      ResolveCoverManifestEntry(Some(AfterAnswers(entry, answers[..|answers| - 1], sourceKey)), last.result, last.now,
                                last.newFileName, sourceKey)
  }

  predicate LostAtOnce(entry: Entry, answers: seq<Answered>, sourceKey: SourceKey) {
    answers != [] && answers[0].result.AbsentAnswer? && entry.sourceKey != Some(sourceKey)
  }

  /**
   * Over any run of answers about one source a cover once there is never missing, if and only if the first of them does
   * not say there is none while the cover was resolved against another source; and then it is the last image written, or
   * still the first file.
   */
  lemma {:induction false} CoverOutlivesItsAnswers(entry: Entry, answers: seq<Answered>, sourceKey: SourceKey)
    requires entry.fileName.Some?
    ensures (forall k | 0 <= k <= |answers| :: AfterAnswers(entry, answers[..k], sourceKey).fileName.Some?)
      <==> !LostAtOnce(entry, answers, sourceKey)
    ensures !LostAtOnce(entry, answers, sourceKey) ==>
      var file := AfterAnswers(entry, answers, sourceKey).fileName;
      file == entry.fileName
      || exists i | 0 <= i < |answers| :: answers[i].result.ImageAnswer? && answers[i].newFileName == file
    ensures answers != [] ==> AfterAnswers(entry, answers, sourceKey).sourceKey == Some(sourceKey)
  {
    assert answers[..|answers|] == answers;
    if answers != [] {
      var front, last := answers[..|answers| - 1], answers[|answers| - 1];
      CoverOutlivesItsAnswers(entry, front, sourceKey);
      assert forall k | 0 <= k <= |front| :: answers[..k] == front[..k];
      var before := AfterAnswers(entry, front, sourceKey);
      if before.fileName.Some? {
        CoversAreLostExactlyWhen(before, last.result, last.now, last.newFileName, sourceKey);
      }
      assert front != [] ==> front[0] == answers[0];
      if LostAtOnce(entry, answers, sourceKey) {
        assert answers[..1][..0] == [] && AfterAnswers(entry, answers[..1], sourceKey).fileName.None?;
      } else {
        assert front[..|front|] == front;
      }
    }
  }

  /** Without the bridge's own delay the first failure waits the base, each next one twice as long, up to the maximum. */
  lemma {:induction false} BackoffDoublesUpToTheMaximum(failureCount: nat)
    requires failureCount > 0
    ensures 900_000 <= ComputeTransientDelayMs(failureCount, None) <= 21_600_000
    ensures ComputeTransientDelayMs(1, None) == 900_000
    ensures var delay, next := ComputeTransientDelayMs(failureCount, None), ComputeTransientDelayMs(failureCount + 1, None);
      next == if 2 * delay < 21_600_000 then 2 * delay else 21_600_000
    ensures forall delay: int :: ComputeTransientDelayMs(failureCount, Some(delay)) == delay
  {
    TwoToTheIsPositive(failureCount - 1);
    assert TwoToThe(failureCount) == 2 * TwoToThe(failureCount - 1);
  }

  lemma {:induction false} TwoToTheIsPositive(exponent: nat)
    ensures TwoToThe(exponent) >= 1
  {
    if exponent > 0 {
      TwoToTheIsPositive(exponent - 1);
    }
  }

  // ----- Manifests -----

  function Referenced(manifest: Manifest): set<Name> {
    set animeId | animeId in manifest && manifest[animeId].fileName.Some? :: manifest[animeId].fileName.value
  }

  /** The name of a file is one of the anime's own, under a token with no dash. */
  ghost predicate OwnName(animeId: Name, fileName: Name) {
    exists token: Name :: DASH !in token && fileName == FileName(animeId, token)
  }

  ghost predicate Owned(manifest: Manifest) {
    forall animeId | animeId in manifest && manifest[animeId].fileName.Some? ::
      OwnName(animeId, manifest[animeId].fileName.value)
  }

  /** Two animes of an owned manifest never share a file. */
  lemma OwnedFilesDiffer(manifest: Manifest, a: Name, b: Name)
    requires Owned(manifest) && a in manifest && b in manifest && a != b
    requires manifest[a].fileName.Some? && manifest[b].fileName.Some?
    ensures manifest[a].fileName != manifest[b].fileName
  {
    var token: Name :| DASH !in token && manifest[a].fileName.value == FileName(a, token);
    var other: Name :| DASH !in other && manifest[b].fileName.value == FileName(b, other);
    DashFreeNamesDiffer(a, b, token, other);
  }

  datatype Source = Source(animeId: Name, sourceKey: SourceKey)

  predicate IsDue(source: Source, manifest: Manifest, now: int, force: bool) {
    || force || source.animeId !in manifest
    || now >= manifest[source.animeId].nextAttemptAt
    || manifest[source.animeId].sourceKey != Some(source.sourceKey)
  }

  /** The active animes to ask about: every one when forced, otherwise those due or whose source changed. */
  method SelectCoverSweepTargets(sources: seq<Source>, manifest: Manifest, now: int, force: bool) returns (targets: seq<Source>)
    ensures forall source :: source in targets <==> source in sources && IsDue(source, manifest, now, force)
    ensures forall source | source in sources ::
      source !in targets <==>
        !force && source.animeId in manifest && now < manifest[source.animeId].nextAttemptAt
        && manifest[source.animeId].sourceKey == Some(source.sourceKey)
    ensures (forall i, j | 0 <= i < j < |sources| :: sources[i].animeId != sources[j].animeId) ==>
      (forall i, j | 0 <= i < j < |targets| :: targets[i].animeId != targets[j].animeId)
  {
    targets := [];
    for i := 0 to |sources|
      invariant forall source :: source in targets <==> source in sources[..i] && IsDue(source, manifest, now, force)
      invariant (forall k, j | 0 <= k < j < |sources| :: sources[k].animeId != sources[j].animeId) ==>
        (forall k, j | 0 <= k < j < |targets| :: targets[k].animeId != targets[j].animeId)
    {
      assert sources[..i + 1] == sources[..i] + [sources[i]];
      assert forall k | 0 <= k < |targets| :: targets[k] in sources[..i];
      if IsDue(sources[i], manifest, now, force) {
        targets := targets + [sources[i]];
      }
    }
    assert sources[..|sources|] == sources;
  }

  function Pruned(manifest: Manifest, active: set<Name>): Manifest {
    map animeId | animeId in manifest && animeId in active :: manifest[animeId]
  }

  function PrunedNames(manifest: Manifest, active: set<Name>): set<Name> {
    set animeId | animeId in manifest && animeId !in active && manifest[animeId].fileName.Some? ::
      manifest[animeId].fileName.value
  }

  /** Drops every entry whose anime is no longer active, and reports its file. */
  method PruneInactiveCoverEntries(manifest: Manifest, active: set<Name>) returns (next: Manifest, fileNames: set<Name>)
    ensures next == Pruned(manifest, active) && fileNames == PrunedNames(manifest, active)
  {
    next, fileNames := map[], {};
    var left := manifest.Keys;
    while left != {}
      invariant left <= manifest.Keys
      invariant forall animeId :: animeId in next <==> animeId in manifest.Keys - left && animeId in active
      invariant forall animeId | animeId in next :: next[animeId] == manifest[animeId]
      invariant fileNames == set animeId | animeId in manifest.Keys - left && animeId !in active
                               && manifest[animeId].fileName.Some? :: manifest[animeId].fileName.value
      decreases |left|
    {
      var animeId :| animeId in left;
      ghost var before := left;
      if animeId in active {
        next := next[animeId := manifest[animeId]];
      } else if manifest[animeId].fileName.Some? {
        fileNames := fileNames + {manifest[animeId].fileName.value};
      }
      left := left - {animeId};
      assert manifest.Keys - left == (manifest.Keys - before) + {animeId};
    }
  }

  /** In an owned manifest no file of a dropped entry is the file of a kept one. */
  lemma PrunedNamesAreUnreferenced(manifest: Manifest, active: set<Name>)
    requires Owned(manifest)
    ensures PrunedNames(manifest, active) !! Referenced(Pruned(manifest, active))
    ensures Owned(Pruned(manifest, active))
  {
    forall a, b | a in manifest && a !in active && manifest[a].fileName.Some?
                  && b in manifest && b in active && manifest[b].fileName.Some?
      ensures manifest[a].fileName != manifest[b].fileName
    {
      OwnedFilesDiffer(manifest, a, b);
    }
  }

  // ----- The manifest on disk -----

  /** A manifest file: none, one cut off while it was written, or a whole one. */
  datatype FileState = Missing | Partial | Whole(manifest: Manifest)

  datatype Disk = Disk(manifest: FileState, temp: FileState)

  function Parse(file: FileState): Manifest { if file.Whole? then file.manifest else map[] }

  /** The manifest file when there is one, the temp file when there is not; anything unreadable is empty. */
  function ReadManifest(disk: Disk): Manifest { Parse(if disk.manifest.Missing? then disk.temp else disk.manifest) }

  const WRITE_STEPS: nat := 5

  /** The disk after the first `k` file operations of a manifest write. */
  function WriteStep(disk: Disk, manifest: Manifest, k: nat): Disk {
    match k
    case 0 => disk
    case 1 => disk.(temp := Missing)
    case 2 => disk.(temp := Partial)
    case 3 => disk.(temp := Whole(manifest))
    case 4 => Disk(Missing, Whole(manifest))
    case _ => Disk(Whole(manifest), Missing)
  }

  /**
   * Cut off anywhere, a write leaves the old manifest readable or the new one: always, unless the old one is only in the
   * temp file, which the write begins by deleting.
   */
  lemma WritesAreAtomicExactlyWhen(disk: Disk, manifest: Manifest)
    ensures (forall k | 0 <= k <= WRITE_STEPS ::
               ReadManifest(WriteStep(disk, manifest, k)) == ReadManifest(disk)
               || ReadManifest(WriteStep(disk, manifest, k)) == manifest)
      <==> !disk.manifest.Missing? || ReadManifest(disk) == map[] || manifest == map[]
  {
    if disk.manifest.Missing? {
      assert ReadManifest(WriteStep(disk, manifest, 1)) == map[];
    }
  }

  /**
   * Two crashes lose the manifest. A write killed between its delete and its move leaves the newest manifest in the temp
   * file only, readable still; the next write killed right after its first delete leaves nothing of either.
   */
  lemma TwoCrashesLoseTheManifest(before: Manifest, first: Manifest, second: Manifest)
    requires first != map[] && second != map[]
    ensures var once := WriteStep(Disk(Whole(before), Missing), first, 4);
      var twice := WriteStep(once, second, 1);
      && once == Disk(Missing, Whole(first)) && ReadManifest(once) == first
      && ReadManifest(twice) == map[] && ReadManifest(twice) != first && ReadManifest(twice) != second
  {
  }

  ghost predicate DiskOwned(disk: Disk) { Owned(Parse(disk.manifest)) && Owned(Parse(disk.temp)) }

  lemma WritingKeepsDiskOwned(disk: Disk, manifest: Manifest, k: nat)
    requires DiskOwned(disk) && Owned(manifest)
    ensures DiskOwned(WriteStep(disk, manifest, k)) && Owned(ReadManifest(WriteStep(disk, manifest, k)))
  {
  }

  // ----- The inbox -----

  datatype InboxEntry = InboxEntry(animeId: Name, etag: Option<Name>, sourceKey: SourceKey, fetchedAt: nat)

  datatype Adoption = Adoption(inboxEntry: InboxEntry, fileName: Name, manifestEntry: Entry)

  /** The decimal text of a clock reading. */
  function Decimal(n: nat): Name {
    if n < 10 then [(0x30 + n) as Unit] else Decimal(n / 10) + [(0x30 + n % 10) as Unit]
  }

  lemma {:induction false} DecimalsHaveNoDash(n: nat)
    ensures DASH !in Decimal(n)
  {
    if n >= 10 {
      DecimalsHaveNoDash(n / 10);
    }
  }

  function AdoptionOf(inboxEntry: InboxEntry): Adoption {
    var fileName := BuildCoverFileName(inboxEntry.animeId, inboxEntry.etag, Decimal(inboxEntry.fetchedAt));
    Adoption(inboxEntry, fileName,
      Entry(Image, Some(fileName), inboxEntry.etag, Some(inboxEntry.fetchedAt), inboxEntry.fetchedAt + COVER_REVALIDATE_MS,
            0, Some(inboxEntry.sourceKey)))
  }

  /** Adopts each inbox cover whose anime has no file yet, drops the others. */
  method PlanCoverInboxAdoption(manifest: Manifest, inbox: seq<InboxEntry>)
    returns (adopt: seq<Adoption>, discard: seq<InboxEntry>)
    ensures forall adoption :: adoption in adopt <==>
      adoption.inboxEntry in inbox && adoption == AdoptionOf(adoption.inboxEntry)
      && (adoption.inboxEntry.animeId in manifest ==> manifest[adoption.inboxEntry.animeId].fileName.None?)
    ensures forall entry :: entry in discard <==>
      entry in inbox && entry.animeId in manifest && manifest[entry.animeId].fileName.Some?
    ensures |adopt| + |discard| == |inbox|
    ensures forall adoption | adoption in adopt ::
      var entry := adoption.inboxEntry;
      && adoption.fileName == BuildCoverFileName(entry.animeId, entry.etag, Decimal(entry.fetchedAt))
      && adoption.manifestEntry == Entry(Image, Some(adoption.fileName), entry.etag, Some(entry.fetchedAt),
                                         entry.fetchedAt + 86_400_000, 0, Some(entry.sourceKey))
  {
    adopt, discard := [], [];
    for i := 0 to |inbox|
      invariant forall adoption :: adoption in adopt <==>
        adoption.inboxEntry in inbox[..i] && adoption == AdoptionOf(adoption.inboxEntry)
        && (adoption.inboxEntry.animeId in manifest ==> manifest[adoption.inboxEntry.animeId].fileName.None?)
      invariant forall entry :: entry in discard <==>
        entry in inbox[..i] && entry.animeId in manifest && manifest[entry.animeId].fileName.Some?
      invariant |adopt| + |discard| == i
    {
      assert inbox[..i + 1] == inbox[..i] + [inbox[i]];
      if inbox[i].animeId in manifest && manifest[inbox[i].animeId].fileName.Some? {
        discard := discard + [inbox[i]];
        continue;
      }
      adopt := adopt + [AdoptionOf(inbox[i])];
    }
    assert inbox[..|inbox|] == inbox;
  }

  predicate DashFree(etag: Option<Name>) { etag.Some? ==> DASH !in etag.value }

  /** An adopted cover is named for its own anime. */
  lemma AdoptionsAreOwned(inboxEntry: InboxEntry)
    requires DashFree(inboxEntry.etag)
    ensures OwnName(inboxEntry.animeId, AdoptionOf(inboxEntry).fileName)
  {
    FetchedNamesAreOwned(inboxEntry.animeId, inboxEntry.etag, inboxEntry.fetchedAt);
  }

  lemma FetchedNamesAreOwned(animeId: Name, etag: Option<Name>, now: nat)
    requires DashFree(etag)
    ensures OwnName(animeId, BuildCoverFileName(animeId, etag, Decimal(now)))
  {
    DecimalsHaveNoDash(now);
    TokensOfDashFreeEtags(etag, Decimal(now));
  }
}
