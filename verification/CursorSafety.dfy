/** No remote change is lost behind the changelog cursor, and the cursor never moves back. */
module CursorSafety {
  import opened Basics
  import opened MergeBoundary
  import opened MergeOrder
  import opened MergeOutcome
  import opened Protocol

  /**
   * The changes a step decides for good: applied, deleted, stale, rejected or skipped by the merge boundary, or
   * deferred under a delete of the same pass that dominates them.
   */
  function DecidedBy(db: Db, step: Step): set<RemoteChange> {
    if step.SettleReconcile? || step.Drain?
    then
      var changes := ChangesOf(PassEntries(db.staged, DeliveredBy(step)));
      var context := ContextOf(db.animes, Unacked(db.log));
      set change | change in changes && (DecideMerge(change, context) != DeferOutbox || Dominated(change, changes))
    else {}
  }

  function Decided(db: Db, steps: seq<Timed>): set<RemoteChange> {
    if steps == [] then {}
    else
      var before := steps[..|steps| - 1];
      Decided(db, before) + DecidedBy(Run(db, before), steps[|steps| - 1].step)
  }

  /** Every entry the stored cursor is past was decided or is still staged; entry `i` has changelog id `i + 1`. */
  ghost predicate Accounted(db: Db, decided: set<RemoteChange>, changelog: seq<RemoteChange>) {
    db.pairing.Some? ==>
      forall i | 0 <= i < |changelog| && i < db.pairing.value.cursor :: changelog[i] in decided || changelog[i] in db.staged
  }

  /** The bridge's contract: an answer carries every entry after the sent cursor up to the answered one. */
  ghost predicate AnswersInFull(step: Step, changelog: seq<RemoteChange>) {
    step.SettleReconcile? || step.StageThenAdvance? ==>
      forall i | 0 <= i < |changelog| && step.sent <= i < step.answered :: changelog[i] in step.changes
  }

  lemma PassChangesAre(staged: seq<RemoteChange>, incoming: seq<RemoteChange>, change: RemoteChange)
    ensures change in ChangesOf(PassEntries(staged, incoming)) <==> change in staged || change in incoming
  {
    var all := StagedEntries(staged) + IncomingEntries(incoming);
    var entries := PassEntries(staged, incoming);
    if change in ChangesOf(entries) {
      var i :| 0 <= i < |entries| && entries[i].change == change;
      ByTimestampMembers(all, entries[i]);
    }
    if change in staged {
      var i :| 0 <= i < |staged| && staged[i] == change;
      assert all[i] == Entry(Some(i), change);
      PassCarries(all, entries, all[i]);
    }
    if change in incoming {
      var i :| 0 <= i < |incoming| && incoming[i] == change;
      assert all[|staged| + i] == Entry(None, change);
      PassCarries(all, entries, all[|staged| + i]);
    }
  }

  lemma PassCarries(all: seq<Entry>, entries: seq<Entry>, entry: Entry)
    requires entries == ByTimestamp(all) && entry in all
    ensures entry.change in ChangesOf(entries)
  {
    ByTimestampMembers(all, entry);
    var i :| 0 <= i < |entries| && entries[i] == entry;
    assert ChangesOf(entries)[i] == entry.change;
  }

  /** Whatever a step finds staged or incoming it decides or leaves staged. */
  lemma StepDecidesOrStages(db: Db, timed: Timed, change: RemoteChange)
    requires change in db.staged || change in DeliveredBy(timed.step)
    requires !timed.step.Unpair?
    ensures change in DecidedBy(db, timed.step) || change in Next(db, timed).staged
  {
    if timed.step.SettleReconcile? || timed.step.Drain? {
      PassChangesAre(db.staged, DeliveredBy(timed.step), change);
      PassStages(db.animes, db.staged, DeliveredBy(timed.step), Unacked(db.log), change);
      StepStages(db, timed);
    } else {
      OtherStepStages(db, timed);
    }
  }

  lemma OtherStepStages(db: Db, timed: Timed)
    requires !timed.step.SettleReconcile? && !timed.step.Drain? && !timed.step.Unpair?
    ensures Next(db, timed).staged == db.staged + DeliveredBy(timed.step)
  {
  }

  lemma StepPairing(db: Db, timed: Timed)
    ensures Next(db, timed).pairing
      == if timed.step.Unpair? then None
         else if timed.step.SettleReconcile? || timed.step.StageThenAdvance?
         then AdvanceCursor(db.pairing, timed.step.pairingId, timed.step.sent, timed.step.answered)
         else db.pairing
  {
  }

  lemma StepAccounts(db: Db, timed: Timed, decided: set<RemoteChange>, changelog: seq<RemoteChange>)
    requires Accounted(db, decided, changelog) && ValidStep(db, timed) && AnswersInFull(timed.step, changelog)
    ensures Accounted(Next(db, timed), decided + DecidedBy(db, timed.step), changelog)
  {
    var db' := Next(db, timed);
    StepPairing(db, timed);
    if db'.pairing.Some? {
      forall i | 0 <= i < |changelog| && i < db'.pairing.value.cursor
        ensures changelog[i] in decided + DecidedBy(db, timed.step) || changelog[i] in db'.staged
      {
        if changelog[i] !in decided {
          assert changelog[i] in db.staged || changelog[i] in DeliveredBy(timed.step);
          StepDecidesOrStages(db, timed, changelog[i]);
        }
      }
    }
  }

  /**
   * Losslessness: if every answer carries all entries after its sent cursor, then in every reachable state of the
   * two runtimes each entry behind the stored cursor was decided by some pass or is still staged.
   */
  lemma {:induction false} NothingIsLostBehindTheCursor(db: Db, steps: seq<Timed>, decided: set<RemoteChange>,
                                                        changelog: seq<RemoteChange>)
    requires ValidRun(db, steps) && Accounted(db, decided, changelog)
    requires forall k | 0 <= k < |steps| :: AnswersInFull(steps[k].step, changelog)
    ensures Accounted(Run(db, steps), decided + Decided(db, steps), changelog)
  {
    if steps == [] {
      assert decided + {} == decided;
    } else {
      var before := steps[..|steps| - 1];
      var last := steps[|steps| - 1];
      ValidPrefix(db, steps);
      NothingIsLostBehindTheCursor(db, before, decided, changelog);
      StepAccounts(Run(db, before), last, decided + Decided(db, before), changelog);
      assert decided + Decided(db, steps) == decided + Decided(db, before) + DecidedBy(Run(db, before), last.step);
    }
  }

  /** The cursor of a pairing never decreases, whatever either runtime was answered. */
  lemma {:induction false} CursorOnlyAdvances(db: Db, steps: seq<Timed>)
    ensures var end := Run(db, steps).pairing;
      end.Some? ==> db.pairing.Some? && end.value.id == db.pairing.value.id && db.pairing.value.cursor <= end.value.cursor
  {
    if steps != [] {
      CursorOnlyAdvances(db, steps[..|steps| - 1]);
      StepPairing(Run(db, steps[..|steps| - 1]), steps[|steps| - 1]);
    }
  }
}
