/** The visible connection: attempt generations, and the queue that publishes what an attempt came to. */
module ConnectionStore {
  import opened Basics

  datatype Kind = Idle | Syncing | Online | Unreachable | SyncError

  datatype Contact = Contact(at: int, reached: bool)

  datatype Snapshot = Snapshot(kind: Kind, lastSyncAt: Option<int>, contact: Option<Contact>)

  /** What an attempt came to. */
  datatype Verdict = Succeeded(at: int) | Pending(reachedAt: int) | Failed(unreachable: bool, at: int)

  /** One publication waiting for its telemetry to be persisted. */
  datatype Publication = Publication(attempt: nat, verdict: Verdict)

  function Published(snapshot: Snapshot, verdict: Verdict): Snapshot {
    match verdict
    case Succeeded(at) => Snapshot(Online, Some(at), Some(Contact(at, true)))
    case Pending(reachedAt) => Snapshot(Idle, snapshot.lastSyncAt, Some(Contact(reachedAt, true)))
    case Failed(unreachable, at) =>
      Snapshot(if unreachable then Unreachable else SyncError, snapshot.lastSyncAt,
        if unreachable then Some(Contact(at, false)) else snapshot.contact)
  }

  class Connection {
    var generation: nat
    var snapshot: Snapshot

    /** The publications queued behind the one whose telemetry is being persisted. */
    var queue: seq<Publication>
    var persisting: Option<Publication>

    /** The attempt that published the snapshot's `online`, and those whose telemetry began to be written. */
    ghost var onlineBy: Option<nat>
    ghost var persisted: seq<nat>

    ghost predicate Valid()
      reads this
    {
      && (snapshot.kind.Online? ==> onlineBy == Some(generation))
      && (forall i | 0 <= i < |persisted| :: persisted[i] <= generation)
      && (forall i, j | 0 <= i < j < |persisted| :: persisted[i] <= persisted[j])
      && (persisting.Some? ==> persisted != [] && persisted[|persisted| - 1] == persisting.value.attempt)
    }

    constructor ()
      ensures Valid() && generation == 0 && snapshot == Snapshot(Idle, None, None) && queue == [] && persisting == None
    {
      generation, snapshot, queue, persisting := 0, Snapshot(Idle, None, None), [], None;
      onlineBy, persisted := None, [];
    }

    /** A newer attempt: whatever was online is so no longer. */
    method Begin() returns (attempt: nat)
      requires Valid()
      modifies `generation, `snapshot, `onlineBy
      ensures Valid() && attempt == generation == old(generation) + 1
      ensures snapshot == old(snapshot).(kind := Syncing) && onlineBy == None
    {
      generation := generation + 1;
      snapshot := snapshot.(kind := Syncing);
      onlineBy := None;
      attempt := generation;
    }

    /** New durable work, or a lost pairing, ends online truth; only the latter forgets the bridge was reached. */
    method Invalidate(forget: bool)
      requires Valid()
      modifies `generation, `snapshot, `onlineBy
      ensures Valid() && generation == old(generation) + 1
      ensures snapshot == old(snapshot).(kind := Idle, contact := if forget then None else old(snapshot).contact)
      ensures onlineBy == None
    {
      generation := generation + 1;
      snapshot := snapshot.(kind := Idle, contact := if forget then None else snapshot.contact);
      onlineBy := None;
    }

    /** Publishes a verdict, unless a newer attempt or notice came since its attempt began. */
    method Mark(attempt: nat, verdict: Verdict)
      requires Valid()
      modifies `snapshot, `onlineBy
      ensures Valid()
      ensures snapshot == if attempt == generation then Published(old(snapshot), verdict) else old(snapshot)
      ensures attempt == generation ==>
        match verdict
        case Succeeded(at) => snapshot == Snapshot(Online, Some(at), Some(Contact(at, true)))
        case Pending(reachedAt) => snapshot == old(snapshot).(kind := Idle, contact := Some(Contact(reachedAt, true)))
        case Failed(unreachable, at) =>
          if unreachable then snapshot == old(snapshot).(kind := Unreachable, contact := Some(Contact(at, false)))
          else snapshot == old(snapshot).(kind := SyncError)
      ensures onlineBy
        == if attempt != generation then old(onlineBy) else if verdict.Succeeded? then Some(attempt) else None
    {
      if attempt != generation {
        return;
      }
      snapshot := Published(snapshot, verdict);
      onlineBy := if verdict.Succeeded? then Some(attempt) else None;
    }

    /** Queues a publication behind the ones before it. */
    method Submit(publication: Publication)
      requires Valid()
      modifies `queue
      ensures Valid() && queue == old(queue) + [publication]
    {
      queue := queue + [publication];
    }

    /** Takes the next publication: a stale one ends here, a current one has its telemetry persisted. */
    method StartNext() returns (started: bool)
      requires Valid() && persisting.None? && queue != []
      modifies `queue, `persisting, `persisted
      ensures Valid() && queue == old(queue)[1..]
      ensures started <==> old(queue)[0].attempt == generation
      ensures persisting == if started then Some(old(queue)[0]) else None
      ensures persisted == if started then old(persisted) + [generation] else old(persisted)
    {
      var next := queue[0];
      queue := queue[1..];
      started := next.attempt == generation;
      if started {
        persisting := Some(next);
        persisted := persisted + [next.attempt];
      }
    }

    /** The telemetry write ended: the verdict shows only if it did not fail and nothing newer came meanwhile. */
    method FinishPersisting(ok: bool) returns (published: bool)
      requires Valid() && persisting.Some?
      modifies `persisting, `snapshot, `onlineBy
      ensures Valid() && persisting == None
      ensures published <==> ok && old(persisting).value.attempt == generation
      ensures snapshot == if published then Published(old(snapshot), old(persisting).value.verdict) else old(snapshot)
    {
      var publication := persisting.value;
      persisting := None;
      published := ok && publication.attempt == generation;
      if published {
        Mark(publication.attempt, publication.verdict);
      }
    }
  }
}
