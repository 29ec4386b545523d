/**
 * The card over the write door: every press is shown and queued at once, and a session's events are what the door does with
 * the queue, together with everybody else's writes of the same files.
 */
module ChapterDoor {
  import opened Gestures
  import opened WriteDoor
  import Chapters = ChapterSession

  /** The pending writes of a session are the unsettled tasks it queued, in order, and their callers know the same. */
  ghost predicate Matches(tasks: seq<Task>, file: string, queued: seq<nat>, pending: seq<Chapters.Write>) {
    && |queued| == |pending|
    && (forall i, j | 0 <= i < j < |queued| :: queued[i] < queued[j])
    && forall i | 0 <= i < |queued| ::
         && queued[i] < |tasks| && tasks[queued[i]].file == file && !tasks[queued[i]].phase.Settled?
         && tasks[queued[i]].told == if pending[i].expired then Expired else Nothing
  }

  /** Whatever the door may settle of a session is its first pending write. */
  lemma OnlyTheFirstIsReached(tasks: seq<Task>, file: string, queued: seq<nat>, pending: seq<Chapters.Write>, id: nat)
    requires Chained(tasks) && Matches(tasks, file, queued, pending) && id in queued
    requires !tasks[id].phase.Waiting? || (tasks[id].previous.Some? ==> PredecessorSettled(tasks, id))
    ensures queued[0] == id
  {
    if queued[0] != id {
      AllBeforeSettled(tasks, queued[0], id);
    }
  }

  /** One task changed, and no longer pending if it settled: the others still match. */
  lemma OthersStillMatch(before: seq<Task>, after: seq<Task>, file: string, queued: seq<nat>, pending: seq<Chapters.Write>,
                         id: nat)
    requires Matches(before, file, queued, pending) && |before| <= |after|
    requires forall i | 0 <= i < |before| && i != id :: after[i] == before[i]
    ensures id !in queued ==> Matches(after, file, queued, pending)
    ensures queued != [] && queued[0] == id ==> Matches(after, file, queued[1..], pending[1..])
  {
  }

  lemma RunOn(start: Chapters.Session, events: seq<Chapters.Event>, event: Chapters.Event)
    ensures Chapters.Run(start, events + [event]) == Chapters.Next(Chapters.Run(start, events), event)
  {
    Chapters.RunOneMore(start, events, event);
  }

  class Screen {
    const door: Door
    const file: string
    var session: Chapters.Session

    /** The door's number of each pending write. */
    var queued: seq<nat>

    ghost const start: Chapters.Session
    ghost var events: seq<Chapters.Event>

    ghost predicate Valid()
      reads this, door
    {
      && door.Valid()
      && Chapters.Fresh(start) && session == Chapters.Run(start, events)
      && Matches(door.tasks, file, queued, session.pending)
    }

    constructor (session: Chapters.Session, file: string)
      requires Chapters.Fresh(session)
      ensures Valid() && fresh(door) && this.session == session && start == session && events == [] && this.file == file
    {
      door := new Door();
      this.session, this.file, queued := session, file, [];
      start, events := session, [];
    }

    /** Somebody else's write joins the queue of some file. */
    method QueueOther(other: string) returns (id: nat)
      requires Valid()
      modifies door
      ensures Valid() && id !in queued
    {
      hide Chained, InQueueOrder, TailsAreLast, RunningIsOpen;
      ghost var before := door.tasks;
      id := door.Enqueue(other);
      OthersStillMatch(before, door.tasks, file, queued, session.pending, id);
    }

    /** A press: shown now, and queued behind every write of the file. */
    method Press(gesture: Gesture, at: int)
      requires Valid()
      modifies this, door
      ensures Valid() && events == old(events) + [Chapters.Press(gesture, at)]
      ensures session == Chapters.Next(old(session), Chapters.Press(gesture, at))
      ensures |queued| == |old(queued)| + 1 && queued[..|old(queued)|] == old(queued)
    {
      hide Chained, InQueueOrder, TailsAreLast, RunningIsOpen, Chapters.Run, Project, Chapters.Fresh;
      RunOn(start, events, Chapters.Press(gesture, at));
      var id := door.Enqueue(file);
      session := Chapters.Next(session, Chapters.Press(gesture, at));
      queued := queued + [id];
      events := events + [Chapters.Press(gesture, at)];
    }

    /** The list reads the row. */
    method Look(read: nat)
      requires Valid()
      modifies `session, `events
      ensures Valid() && events == old(events) + [Chapters.Look(read)]
      ensures session == Chapters.Next(old(session), Chapters.Look(read))
    {
      hide Chained, InQueueOrder, TailsAreLast, RunningIsOpen, Chapters.Run, Chapters.Fresh;
      RunOn(start, events, Chapters.Look(read));
      session := Chapters.Next(session, Chapters.Look(read));
      events := events + [Chapters.Look(read)];
    }

    /** The door reaches a write, of the card or of anybody: its transaction begins, or it has failed. */
    method Begin(id: nat, granted: bool)
      requires Valid() && id < |door.tasks| && door.tasks[id].phase.Waiting?
      requires door.tasks[id].previous.Some? ==> PredecessorSettled(door.tasks, id)
      modifies this, door
      ensures Valid()
      ensures var refused := id in old(queued) && !(granted && old(door.tasks)[id].file !in old(door.open));
        && (refused ==> id == old(queued)[0] && queued == old(queued)[1..]
                        && events == old(events) + [Chapters.Fail] && session == Chapters.Next(old(session), Chapters.Fail))
        && (!refused ==> session == old(session) && events == old(events) && queued == old(queued))
    {
      hide Chained, InQueueOrder, TailsAreLast, RunningIsOpen, Chapters.Run, Chapters.Fresh;
      ghost var before := door.tasks;
      var mine := id in queued;
      if mine {
        OnlyTheFirstIsReached(door.tasks, file, queued, session.pending, id);
      }
      RunOn(start, events, Chapters.Fail);
      door.Begin(id, granted);
      OthersStillMatch(before, door.tasks, file, queued, session.pending, id);
      if mine && door.tasks[id].phase.Settled? {
        session := Chapters.Next(session, Chapters.Fail);
        queued := queued[1..];
        events := events + [Chapters.Fail];
      }
    }

    /**
     * A running write ends. The card's writes commit in the order they were pressed, and in a run of harmless events each
     * leaves the row at the very pair its gesture was shown with.
     */
    method Finish(id: nat, bodyOk: bool, commitOk: bool, rollbackOk: bool, at: int)
      requires Valid() && id < |door.tasks| && door.tasks[id].phase.Running?
      modifies this, door
      ensures Valid()
      ensures id !in old(queued) ==> session == old(session) && events == old(events) && queued == old(queued)
      ensures id in old(queued) ==>
        var event := if bodyOk && commitOk then Chapters.Commit(at) else Chapters.Fail;
        && id == old(queued)[0] && queued == old(queued)[1..]
        && events == old(events) + [event] && session == Chapters.Next(old(session), event)
      ensures id in old(queued) && bodyOk && commitOk && Chapters.HarmlessThroughout(start, old(events)) ==>
        session.row.shown == old(session).pending[0].promised
    {
      hide Chained, InQueueOrder, TailsAreLast, RunningIsOpen, Chapters.Run, Chapters.Fresh, Perform,
        Chapters.HarmlessThroughout;
      ghost var before := door.tasks;
      var mine, event := id in queued, if bodyOk && commitOk then Chapters.Commit(at) else Chapters.Fail;
      if mine {
        OnlyTheFirstIsReached(door.tasks, file, queued, session.pending, id);
      }
      RunOn(start, events, event);
      assert events[..|events|] == events;
      if Chapters.HarmlessThroughout(start, events) {
        Chapters.WritesStoreWhatWasShown(start, events, |events|, at);
      }
      door.Finish(id, bodyOk, commitOk, rollbackOk);
      OthersStillMatch(before, door.tasks, file, queued, session.pending, id);
      if mine {
        session := Chapters.Next(session, event);
        queued := queued[1..];
        events := events + [event];
      }
    }

    /** The deadline of a write expires: the card drops its gesture, and the write keeps its place in the queue. */
    method Expire(id: nat)
      requires Valid() && id < |door.tasks|
      modifies this, door
      ensures Valid() && queued == old(queued) && session.row == old(session).row
      ensures id !in queued ==> session == old(session) && events == old(events)
      ensures forall i | 0 <= i < |queued| && queued[i] == id ::
        events == old(events) + [Chapters.Expire(i)] && session == Chapters.Next(old(session), Chapters.Expire(i))
    {
      hide Chained, InQueueOrder, TailsAreLast, RunningIsOpen, Chapters.Run, Chapters.Fresh;
      ghost var before := door.tasks;
      door.Expire(id);
      assert forall k | 0 <= k < |before| && k != id :: door.tasks[k] == before[k];
      if id in queued {
        var i :| 0 <= i < |queued| && queued[i] == id;
        RunOn(start, events, Chapters.Expire(i));
        session := Chapters.Next(session, Chapters.Expire(i));
        events := events + [Chapters.Expire(i)];
      } else {
        OthersStillMatch(before, door.tasks, file, queued, session.pending, id);
      }
    }
  }
}
