/** The write door: one queue of transactions per database file, whose deadlines bound only the caller's wait. */
module WriteDoor {
  import opened Basics

  datatype Phase = Waiting | Running | Settled(committed: bool)

  /** What the caller of a write has been told. */
  datatype Told = Nothing | Returned(ok: bool) | Expired

  /** A queued write: its file, the write it chains on, how far it came and what its caller knows. */
  datatype Task = Task(file: string, previous: Option<nat>, phase: Phase, told: Told)

  /** The last write queued for a file. */
  function LastOf(tasks: seq<Task>, file: string): (last: Option<nat>)
    ensures last.Some? ==> last.value < |tasks| && tasks[last.value].file == file
    ensures last.Some? ==> forall i | last.value < i < |tasks| :: tasks[i].file != file
    ensures last.None? ==> forall i | 0 <= i < |tasks| :: tasks[i].file != file
  {
    if tasks == [] then None
    else if tasks[|tasks| - 1].file == file then Some(|tasks| - 1)
    else LastOf(tasks[..|tasks| - 1], file)
  }

  predicate PredecessorSettled(tasks: seq<Task>, j: nat)
    requires j < |tasks| && tasks[j].previous.Some?
  {
    tasks[j].previous.value < |tasks| && tasks[tasks[j].previous.value].phase.Settled?
  }

  /** The write chains on the one queued before it for its file, and starts only once that one has settled. */
  predicate ChainedAt(tasks: seq<Task>, j: nat)
    requires j < |tasks|
  {
    && tasks[j].previous == LastOf(tasks[..j], tasks[j].file)
    && (!tasks[j].phase.Waiting? && tasks[j].previous.Some? ==> PredecessorSettled(tasks, j))
  }

  predicate Chained(tasks: seq<Task>) { forall j | 0 <= j < |tasks| :: ChainedAt(tasks, j) }

  /** A write that has started, or settled, comes after every earlier write of its file has settled. */
  lemma {:induction false} StartedAfterAllBefore(tasks: seq<Task>, i: nat, j: nat)
    requires Chained(tasks) && i < j < |tasks| && tasks[i].file == tasks[j].file && !tasks[j].phase.Waiting?
    ensures tasks[i].phase.Settled?
    decreases j
  {
    assert ChainedAt(tasks, j);
    var previous := LastOf(tasks[..j], tasks[j].file);
    assert tasks[..j][i] == tasks[i];
    assert previous.Some? && i <= previous.value;
    if i < previous.value {
      StartedAfterAllBefore(tasks, i, previous.value);
    }
  }

  /** A write that is reached, its predecessor settled, comes after every earlier write of its file has settled. */
  lemma AllBeforeSettled(tasks: seq<Task>, i: nat, j: nat)
    requires Chained(tasks) && i < j < |tasks| && tasks[i].file == tasks[j].file
    requires !tasks[j].phase.Waiting? || (tasks[j].previous.Some? ==> PredecessorSettled(tasks, j))
    ensures tasks[i].phase.Settled?
  {
    assert ChainedAt(tasks, j);
    assert tasks[..j][i] == tasks[i];
    var previous := tasks[j].previous;
    assert previous.Some? && i <= previous.value;
    if i < previous.value {
      StartedAfterAllBefore(tasks, i, previous.value);
    }
  }

  /** Never two transactions of one file run at once, and the later of two started writes is never the earlier queued. */
  lemma NeverTwoTransactions(tasks: seq<Task>, i: nat, j: nat)
    requires Chained(tasks) && i < |tasks| && j < |tasks| && tasks[i].file == tasks[j].file
    requires tasks[i].phase.Running? && tasks[j].phase.Running?
    ensures i == j
  {
    if i < j {
      StartedAfterAllBefore(tasks, i, j);
    } else if j < i {
      StartedAfterAllBefore(tasks, j, i);
    }
  }

  /** The writes of one file commit in the order they were queued. */
  predicate InQueueOrder(tasks: seq<Task>, committed: seq<nat>) {
    && (forall k | 0 <= k < |committed| :: committed[k] < |tasks| && tasks[committed[k]].phase == Settled(true))
    && (forall i | 0 <= i < |tasks| && tasks[i].phase == Settled(true) :: i in committed)
    && forall a, b | 0 <= a < b < |committed| ::
         tasks[committed[a]].file == tasks[committed[b]].file ==> committed[a] < committed[b]
  }

  /** The tail of each file is the last write queued for it. */
  ghost predicate TailsAreLast(tasks: seq<Task>, tail: map<string, nat>) {
    && (forall file :: file in tail <==> LastOf(tasks, file).Some?)
    && forall file | file in tail :: LastOf(tasks, file) == Some(tail[file])
  }

  predicate RunningIsOpen(tasks: seq<Task>, open: set<string>) {
    forall i | 0 <= i < |tasks| && tasks[i].phase.Running? :: tasks[i].file in open
  }

  class Door {
    var tasks: seq<Task>

    /** The queue's tail of each file. */
    var tail: map<string, nat>

    /** The files whose connection has a transaction open. */
    var open: set<string>

    /** Every committed write, in the order it committed. */
    ghost var committed: seq<nat>

    ghost predicate Valid()
      reads this
    {
      && Chained(tasks)
      && TailsAreLast(tasks, tail)
      && RunningIsOpen(tasks, open)
      && InQueueOrder(tasks, committed)
    }

    constructor ()
      ensures Valid() && tasks == []
    {
      tasks, tail, open, committed := [], map[], {}, [];
    }

    /** Queues a write behind every earlier write of its file. */
    method Enqueue(file: string) returns (id: nat)
      requires Valid()
      modifies this
      ensures Valid() && id == |old(tasks)| && open == old(open) && committed == old(committed)
      ensures tasks == old(tasks) + [Task(file, LastOf(old(tasks), file), Waiting, Nothing)]
    {
      hide Chained, LastOf, InQueueOrder;
      id := |tasks|;
      var previous := if file in tail then Some(tail[file]) else None;
      var task := Task(file, previous, Waiting, Nothing);
      assert previous == LastOf(tasks, file);
      LongerQueue(tasks, task);
      LongerQueueInOrder(tasks, task, committed);
      LongerQueueTails(tasks, tail, task);
      hide TailsAreLast;
      tasks := tasks + [task];
      tail := tail[file := id];
    }

    /**
     * The event loop reaches a write whose predecessor settled: `BEGIN IMMEDIATE` runs. A connection with a transaction
     * still open refuses it, and a write whose transaction never began is over.
     */
    method Begin(id: nat, granted: bool)
      requires Valid() && id < |tasks| && tasks[id].phase.Waiting?
      requires tasks[id].previous.Some? ==> PredecessorSettled(tasks, id)
      modifies this
      ensures Valid() && committed == old(committed)
      ensures var began := granted && old(tasks)[id].file !in old(open);
        && tasks == old(tasks)[id := if began then old(tasks)[id].(phase := Running)
             else old(tasks)[id].(phase := Settled(false),
                                  told := if old(tasks)[id].told.Nothing? then Returned(false) else old(tasks)[id].told)]
        && open == if began then old(open) + {old(tasks)[id].file} else old(open)
    {
      var began := granted && tasks[id].file !in open;
      ghost var before := tasks;
      AllBehindWait(tasks, id);
      if began {
        open := open + {tasks[id].file};
        tasks := tasks[id := tasks[id].(phase := Running)];
      } else {
        tasks := tasks[id := Settle(tasks[id], false)];
      }
      PhaseChangeKeepsChain(before, tasks, id);
    }

    /**
     * The body of a write ends. A body that succeeded commits; a failed body, or a failed commit, rolls back; a rollback
     * that fails too leaves the transaction open on the connection.
     */
    method Finish(id: nat, bodyOk: bool, commitOk: bool, rollbackOk: bool)
      requires Valid() && id < |tasks| && tasks[id].phase.Running?
      modifies this
      ensures Valid()
      ensures var done := bodyOk && commitOk;
        && tasks == old(tasks)[id := old(tasks)[id].(phase := Settled(done),
             told := if old(tasks)[id].told.Nothing? then Returned(done) else old(tasks)[id].told)]
        && open == (if done || rollbackOk then old(open) - {old(tasks)[id].file} else old(open))
        && committed == (if done then old(committed) + [id] else old(committed))
    {
      hide Chained, LastOf, InQueueOrder;
      var done := bodyOk && commitOk;
      ghost var before := tasks;
      OnlyThisRuns(tasks, id);
      RunningIsReady(tasks, id);
      CommittedBefore(tasks, committed, id);
      if done || rollbackOk {
        open := open - {tasks[id].file};
      }
      tasks := tasks[id := Settle(tasks[id], done)];
      PhaseChangeKeepsChain(before, tasks, id);
      SettlesInOrder(before, committed, id, done);
      if done {
        committed := committed + [id];
      }
    }

    /** A deadline expires: the caller is told so, and nothing else changes, whoever waits behind. */
    method Expire(id: nat)
      requires Valid() && id < |tasks|
      modifies this
      ensures Valid() && open == old(open) && committed == old(committed)
      ensures |tasks| == |old(tasks)|
      ensures forall i | 0 <= i < |tasks| && i != id :: tasks[i] == old(tasks)[i]
      ensures tasks[id] == old(tasks)[id].(told := if old(tasks)[id].told.Nothing? then Expired else old(tasks)[id].told)
    {
      ghost var before := tasks;
      if tasks[id].told.Nothing? {
        tasks := tasks[id := tasks[id].(told := Expired)];
      }
      assert ChainedAt(before, id);
      PhaseChangeKeepsChain(before, tasks, id);
    }
  }

  lemma LongerQueue(tasks: seq<Task>, task: Task)
    requires Chained(tasks) && task.phase.Waiting? && task.previous == LastOf(tasks, task.file)
    ensures Chained(tasks + [task])
    ensures forall file :: LastOf(tasks + [task], file) == if file == task.file then Some(|tasks|) else LastOf(tasks, file)
  {
    hide LastOf, ChainedAt;
    var longer := tasks + [task];
    LastOfLonger(tasks, task);
    forall j | 0 <= j < |longer| ensures ChainedAt(longer, j) {
      if j < |tasks| {
        LongerKeepsLink(tasks, task, j);
      } else {
        NewestIsLinked(tasks, task);
      }
    }
  }

  lemma LongerKeepsLink(tasks: seq<Task>, task: Task, j: nat)
    requires j < |tasks| && ChainedAt(tasks, j)
    ensures ChainedAt(tasks + [task], j)
  {
    var longer := tasks + [task];
    assert longer[..j] == tasks[..j] && longer[j] == tasks[j];
    if tasks[j].previous.Some? {
      assert longer[tasks[j].previous.value] == tasks[tasks[j].previous.value];
    }
  }

  lemma NewestIsLinked(tasks: seq<Task>, task: Task)
    requires task.phase.Waiting? && task.previous == LastOf(tasks, task.file)
    ensures ChainedAt(tasks + [task], |tasks|)
  {
    assert (tasks + [task])[..|tasks|] == tasks;
  }

  lemma LastOfLonger(tasks: seq<Task>, task: Task)
    ensures forall file :: LastOf(tasks + [task], file) == if file == task.file then Some(|tasks|) else LastOf(tasks, file)
  {
    assert (tasks + [task])[..|tasks|] == tasks;
  }

  lemma LongerQueueTails(tasks: seq<Task>, tail: map<string, nat>, task: Task)
    requires TailsAreLast(tasks, tail)
    requires forall file :: LastOf(tasks + [task], file) == if file == task.file then Some(|tasks|) else LastOf(tasks, file)
    ensures TailsAreLast(tasks + [task], tail[task.file := |tasks|])
  {
    hide LastOf;
  }

  lemma LongerQueueInOrder(tasks: seq<Task>, task: Task, committed: seq<nat>)
    requires InQueueOrder(tasks, committed) && task.phase.Waiting?
    ensures InQueueOrder(tasks + [task], committed)
  {
    assert forall k | 0 <= k < |committed| :: (tasks + [task])[committed[k]] == tasks[committed[k]];
  }

  /** Settling one running write moves no other, and takes no commit back. */
  lemma OthersStayCommitted(tasks: seq<Task>, committed: seq<nat>, id: nat, settled: Task)
    requires InQueueOrder(tasks, committed) && id < |tasks| && tasks[id].phase.Running? && settled.file == tasks[id].file
    ensures id !in committed
    ensures var after := tasks[id := settled];
      && (forall k | 0 <= k < |committed| ::
            committed[k] < |tasks| && after[committed[k]] == tasks[committed[k]] && after[committed[k]].phase == Settled(true))
      && (forall i | 0 <= i < |tasks| && i != id && after[i].phase == Settled(true) :: i in committed)
      && forall a, b | 0 <= a < b < |committed| && after[committed[a]].file == after[committed[b]].file ::
           committed[a] < committed[b]
  {
  }

  /** The running write settles behind every commit of its file, and is one of them if it committed. */
  lemma SettlesInOrder(tasks: seq<Task>, committed: seq<nat>, id: nat, done: bool)
    requires InQueueOrder(tasks, committed) && id < |tasks| && tasks[id].phase.Running?
    requires forall k | 0 <= k < |committed| && tasks[committed[k]].file == tasks[id].file :: committed[k] < id
    ensures InQueueOrder(tasks[id := Settle(tasks[id], done)], if done then committed + [id] else committed)
  {
    hide Settle;
    var settled := Settle(tasks[id], done);
    SettledIs(tasks[id], done);
    OthersStayCommitted(tasks, committed, id, settled);
    if done {
      CommittedOneMore(tasks[id := settled], committed, id);
    }
  }

  lemma CommittedOneMore(tasks: seq<Task>, committed: seq<nat>, id: nat)
    requires id < |tasks| && tasks[id].phase == Settled(true) && id !in committed
    requires forall k | 0 <= k < |committed| :: committed[k] < |tasks| && tasks[committed[k]].phase == Settled(true)
    requires forall i | 0 <= i < |tasks| && i != id && tasks[i].phase == Settled(true) :: i in committed
    requires forall a, b | 0 <= a < b < |committed| && tasks[committed[a]].file == tasks[committed[b]].file ::
      committed[a] < committed[b]
    requires forall k | 0 <= k < |committed| && tasks[committed[k]].file == tasks[id].file :: committed[k] < id
    ensures InQueueOrder(tasks, committed + [id])
  {
    var longer := committed + [id];
    forall i | 0 <= i < |tasks| && tasks[i].phase == Settled(true) ensures i in longer {
      assert i == id || i in committed;
    }
  }

  lemma SettledIs(task: Task, ok: bool)
    ensures Settle(task, ok).phase == Settled(ok) && Settle(task, ok).file == task.file
  {
  }

  lemma RunningIsReady(tasks: seq<Task>, id: nat)
    requires Chained(tasks) && id < |tasks| && !tasks[id].phase.Waiting?
    ensures tasks[id].previous.Some? ==>
      tasks[id].previous.value < id && tasks[tasks[id].previous.value].phase.Settled?
  {
    assert ChainedAt(tasks, id);
  }

  /** Every write of the file that already committed was queued before the one that runs. */
  lemma CommittedBefore(tasks: seq<Task>, committed: seq<nat>, id: nat)
    requires Chained(tasks) && id < |tasks| && tasks[id].phase.Running? && InQueueOrder(tasks, committed)
    ensures forall k | 0 <= k < |committed| && tasks[committed[k]].file == tasks[id].file :: committed[k] < id
  {
    forall k | 0 <= k < |committed| && tasks[committed[k]].file == tasks[id].file ensures committed[k] < id {
      if id < committed[k] {
        StartedAfterAllBefore(tasks, id, committed[k]);
      }
    }
  }

  /** A settled write tells its caller, unless the deadline already did. */
  function Settle(task: Task, ok: bool): Task {
    task.(phase := Settled(ok), told := if task.told.Nothing? then Returned(ok) else task.told)
  }

  lemma AllBehindWait(tasks: seq<Task>, id: nat)
    requires Chained(tasks) && id < |tasks| && tasks[id].phase.Waiting?
    ensures forall j | id < j < |tasks| && tasks[j].file == tasks[id].file :: tasks[j].phase.Waiting?
  {
    forall j | id < j < |tasks| && tasks[j].file == tasks[id].file ensures tasks[j].phase.Waiting? {
      if !tasks[j].phase.Waiting? {
        StartedAfterAllBefore(tasks, id, j);
      }
    }
  }

  lemma OnlyThisRuns(tasks: seq<Task>, id: nat)
    requires Chained(tasks) && id < |tasks| && tasks[id].phase.Running?
    ensures forall j | 0 <= j < |tasks| && j != id && tasks[j].file == tasks[id].file :: !tasks[j].phase.Running?
  {
    forall j | 0 <= j < |tasks| && tasks[j].file == tasks[id].file && tasks[j].phase.Running? ensures j == id {
      NeverTwoTransactions(tasks, j, id);
    }
  }

  /** Moving one write forward, once its predecessor settled, keeps the chain and the tails. */
  lemma PhaseChangeKeepsChain(before: seq<Task>, after: seq<Task>, id: nat)
    requires Chained(before) && id < |before| && |after| == |before|
    requires forall j | 0 <= j < |before| && j != id :: after[j] == before[j]
    requires after[id].file == before[id].file && after[id].previous == before[id].previous
    requires before[id].phase.Settled? ==> after[id].phase.Settled?
    requires !after[id].phase.Waiting? && after[id].previous.Some? ==>
      PredecessorSettled(before, id)
    ensures Chained(after)
    ensures forall file :: LastOf(after, file) == LastOf(before, file)
  {
    hide LastOf, ChainedAt;
    assert forall j | 0 <= j < |after| :: after[j].file == before[j].file;
    forall file ensures LastOf(after, file) == LastOf(before, file) {
      SameFilesSameLast(before, after, file);
    }
    forall j | 0 <= j < |after| ensures ChainedAt(after, j) {
      PhaseChangeKeepsLink(before, after, id, j);
    }
  }

  lemma PhaseChangeKeepsLink(before: seq<Task>, after: seq<Task>, id: nat, j: nat)
    requires j < |before| && ChainedAt(before, j) && id < |before| && |after| == |before|
    requires forall k | 0 <= k < |before| && k != id :: after[k] == before[k]
    requires after[id].file == before[id].file && after[id].previous == before[id].previous
    requires before[id].phase.Settled? ==> after[id].phase.Settled?
    requires !after[id].phase.Waiting? && after[id].previous.Some? ==>
      PredecessorSettled(before, id)
    ensures ChainedAt(after, j)
  {
    SameFilesSameLast(before[..j], after[..j], after[j].file);
  }

  lemma {:induction false} SameFilesSameLast(a: seq<Task>, b: seq<Task>, file: string)
    requires |a| == |b| && forall i | 0 <= i < |a| :: a[i].file == b[i].file
    ensures LastOf(a, file) == LastOf(b, file)
  {
    if a != [] {
      SameFilesSameLast(a[..|a| - 1], b[..|b| - 1], file);
    }
  }
}
