/** The one way out: per database one run at a time and one follow-up, which every later request joins. */
module SyncFlush {
  import opened Basics
  import opened ConnectionStore

  datatype Reason =
    | Bootstrap | Manual | AppActive | NetworkRegained | WsSyncRequired | WsReconnected | WsDisconnected
    | LocalMutation | SeasonRating

  datatype HealDemand = Never | IfStale | Always

  function Rank(demand: HealDemand): nat {
    match demand case Never => 0 case IfStale => 1 case Always => 2
  }

  function DemandOf(reason: Reason): HealDemand {
    match reason
    case Bootstrap => Always
    case AppActive => Always
    case WsReconnected => IfStale
    case _ => Never
  }

  /** Starting up and coming to the front heal always, a regained socket only a stale list, and nothing else heals. */
  lemma DemandsAre(reason: Reason)
    ensures DemandOf(reason) == Always <==> reason == Bootstrap || reason == AppActive
    ensures DemandOf(reason) == IfStale <==> reason == WsReconnected
    ensures Rank(Never) < Rank(IfStale) < Rank(Always)
  {
    match reason case _ =>
  }

  function Stronger(a: HealDemand, b: HealDemand): HealDemand { if Rank(b) > Rank(a) then b else a }

  function MergeSnapshotHealDemands(reasons: seq<Reason>): HealDemand {
    if reasons == [] then Never
    else Stronger(MergeSnapshotHealDemands(reasons[..|reasons| - 1]), DemandOf(reasons[|reasons| - 1]))
  }

  /** The demand a run serves is the strongest of its reasons: at least each of them, and one of them. */
  lemma {:induction false} MergedDemandIsTheStrongest(reasons: seq<Reason>)
    ensures forall i | 0 <= i < |reasons| :: Rank(DemandOf(reasons[i])) <= Rank(MergeSnapshotHealDemands(reasons))
    ensures MergeSnapshotHealDemands(reasons) == Never
      || exists i | 0 <= i < |reasons| :: MergeSnapshotHealDemands(reasons) == DemandOf(reasons[i])
  {
    if reasons != [] {
      var before, last := reasons[..|reasons| - 1], reasons[|reasons| - 1];
      MergedDemandIsTheStrongest(before);
      var merged := MergeSnapshotHealDemands(reasons);
      if merged == DemandOf(last) {
        assert reasons[|reasons| - 1] == last;
      } else if merged != Never {
        var i :| 0 <= i < |before| && MergeSnapshotHealDemands(before) == DemandOf(before[i]);
        assert reasons[i] == before[i];
      }
    }
  }

  lemma OneReason(reason: Reason)
    ensures MergeSnapshotHealDemands([reason]) == DemandOf(reason)
  {
    assert [reason][..0] == [];
  }

  /** One run: its database, the demand it serves and the connection attempt its dispatcher began, if it got that far. */
  datatype Run = Run(database: nat, demand: HealDemand, attempt: Option<nat>, ended: bool)

  /** How a request is settled: still open in a run or in the follow-up, or over with a run or with none. */
  datatype Service = InRun(run: nat) | InFollowUp | ByRun(run: nat) | ByNone

  /** A request, how many runs had started when it was made, and how it is settled. */
  datatype Request = Request(database: nat, reason: Reason, madeAt: nat, service: Service)

  datatype FlushState = FlushState(run: nat, followUp: Option<seq<Reason>>)

  /**
   * The run is not over exactly while it is its database's; attempts come in the order of the runs, and those of a
   * database are all stale once a follow-up is queued for it.
   */
  ghost predicate RunsAreKept(states: map<nat, FlushState>, runs: seq<Run>, generation: nat) {
    && (forall database | database in states ::
          var state := states[database];
          && state.run < |runs| && runs[state.run].database == database && !runs[state.run].ended
          && (state.followUp.Some? ==> state.followUp.value != [] && AllBelow(runs, database, generation)))
    && (forall k | 0 <= k < |runs| && !runs[k].ended ::
          runs[k].database in states && states[runs[k].database].run == k)
    && (forall k | 0 <= k < |runs| :: AttemptBelow(runs[k], generation + 1))
    && forall j, k | 0 <= j < k < |runs| && runs[j].attempt.Some? && runs[k].attempt.Some? ::
         runs[j].attempt.value < runs[k].attempt.value
  }

  /** Every attempt a run of the database began is older than the generation. */
  predicate AllBelow(runs: seq<Run>, database: nat, generation: nat) {
    forall k | 0 <= k < |runs| && runs[k].database == database :: AttemptBelow(runs[k], generation)
  }

  predicate AttemptBelow(run: Run, generation: nat) { run.attempt.Some? ==> run.attempt.value < generation }

  /** The run started when the request was made or later, for its database, with its heal demand at least. */
  predicate Serves(runs: seq<Run>, k: nat, request: Request) {
    && k < |runs| && request.madeAt <= k && runs[k].database == request.database
    && Rank(DemandOf(request.reason)) <= Rank(runs[k].demand)
  }

  /** No request is lost: each is in the run or the follow-up that will settle it, or was settled by its own run. */
  predicate Served(request: Request, states: map<nat, FlushState>, runs: seq<Run>) {
    match request.service
    case InRun(k) => Serves(runs, k, request) && !runs[k].ended
    case ByRun(k) => Serves(runs, k, request) && runs[k].ended
    case InFollowUp =>
      && request.database in states && states[request.database].followUp.Some?
      && request.reason in states[request.database].followUp.value && request.madeAt <= |runs|
    case ByNone => true
  }

  predicate AllServed(requests: seq<Request>, states: map<nat, FlushState>, runs: seq<Run>) {
    forall r | 0 <= r < |requests| :: Served(requests[r], states, runs)
  }

  /** The requests once run `k` has ended, its follow-up going to `next`. */
  function AfterRun(requests: seq<Request>, database: nat, k: nat, next: Service): seq<Request> {
    seq(|requests|, r requires 0 <= r < |requests| =>
      if requests[r].service == InRun(k) then requests[r].(service := ByRun(k))
      else if requests[r].service == InFollowUp && requests[r].database == database then requests[r].(service := next)
      else requests[r])
  }

  /** At most one run of a database is active. */
  lemma SingleFlight(states: map<nat, FlushState>, runs: seq<Run>, generation: nat, i: nat, j: nat)
    requires RunsAreKept(states, runs, generation) && i < |runs| && j < |runs|
    requires !runs[i].ended && !runs[j].ended && runs[i].database == runs[j].database
    ensures i == j
  {
  }

  lemma RunStarts(states: map<nat, FlushState>, runs: seq<Run>, generation: nat, later: nat, run: Run)
    requires RunsAreKept(states, runs, generation) && generation <= later
    requires run.database !in states && !run.ended
    requires run.attempt.Some? ==> generation < run.attempt.value <= later
    ensures RunsAreKept(states[run.database := FlushState(|runs|, None)], runs + [run], later)
  {
    var states', runs' := states[run.database := FlushState(|runs|, None)], runs + [run];
    assert forall k | 0 <= k < |runs| :: runs'[k] == runs[k];
    assert runs'[|runs|] == run;
  }

  lemma StalerRunsAreKept(states: map<nat, FlushState>, runs: seq<Run>, generation: nat, later: nat)
    requires RunsAreKept(states, runs, generation) && generation <= later
    ensures RunsAreKept(states, runs, later)
  {
    forall database | database in states && states[database].followUp.Some? ensures AllBelow(runs, database, later) {
      assert AllBelow(runs, database, generation);
    }
  }

  lemma RunEnds(states: map<nat, FlushState>, runs: seq<Run>, generation: nat, database: nat)
    requires RunsAreKept(states, runs, generation) && database in states
    ensures var k := states[database].run;
      RunsAreKept(states - {database}, runs[k := runs[k].(ended := true)], generation)
  {
  }

  /** When a run ends, its own requests are settled by it and the follow-up's go on together. */
  lemma EndingServesAll(requests: seq<Request>, states: map<nat, FlushState>, runs: seq<Run>, generation: nat, database: nat,
                        states': map<nat, FlushState>, runs': seq<Run>, next: Service)
    requires RunsAreKept(states, runs, generation) && database in states && AllServed(requests, states, runs)
    requires var k := states[database].run;
      && |runs'| >= |runs| && runs'[k] == runs[k].(ended := true)
      && (forall i | 0 <= i < |runs| && i != k :: runs'[i] == runs[i])
    requires forall other | other in states && other != database :: other in states' && states'[other] == states[other]
    requires next == ByNone || (next == InRun(|runs|) && |runs'| == |runs| + 1 && states[database].followUp.Some?
                                && runs'[|runs|].database == database && !runs'[|runs|].ended
                                && runs'[|runs|].demand == MergeSnapshotHealDemands(states[database].followUp.value))
    ensures AllServed(AfterRun(requests, database, states[database].run, next), states', runs')
  {
    var k := states[database].run;
    var requests' := AfterRun(requests, database, k, next);
    if states[database].followUp.Some? {
      MergedDemandIsTheStrongest(states[database].followUp.value);
    }
    forall r | 0 <= r < |requests'| ensures Served(requests'[r], states', runs') {
      assert Served(requests[r], states, runs);
      if requests[r].service.InRun? && requests[r].service != InRun(k) {
        assert states[runs[requests[r].service.run].database].run == requests[r].service.run;
      }
    }
  }

  lemma NobodyServes(requests: seq<Request>, states: map<nat, FlushState>, runs: seq<Run>, request: Request)
    requires AllServed(requests, states, runs) && request.service == ByNone
    ensures AllServed(requests + [request], states, runs)
  {
  }

  /** A request that joins a follow-up, queued now or before, is served by it. */
  lemma RequestJoins(requests: seq<Request>, states: map<nat, FlushState>, runs: seq<Run>, generation: nat, later: nat,
                     database: nat, reason: Reason)
    requires RunsAreKept(states, runs, generation) && AllServed(requests, states, runs) && database in states
    requires generation <= later && (states[database].followUp.None? ==> generation < later)
    ensures var reasons := if states[database].followUp.Some? then states[database].followUp.value else [];
      var states' := states[database := FlushState(states[database].run, Some(reasons + [reason]))];
      && RunsAreKept(states', runs, later)
      && AllServed(requests + [Request(database, reason, |runs|, InFollowUp)], states', runs)
  {
    var reasons := if states[database].followUp.Some? then states[database].followUp.value else [];
    var states' := states[database := FlushState(states[database].run, Some(reasons + [reason]))];
    assert (reasons + [reason])[|reasons|] == reason;
    forall r | 0 <= r < |requests| ensures Served(requests[r], states', runs) {
      assert Served(requests[r], states, runs);
    }
  }

  /** A request that starts a run is served by it; what was served before still is. */
  lemma RequestStarts(requests: seq<Request>, states: map<nat, FlushState>, runs: seq<Run>, generation: nat, run: Run,
                      reason: Reason)
    requires RunsAreKept(states, runs, generation) && AllServed(requests, states, runs) && run.database !in states
    requires run.demand == MergeSnapshotHealDemands([reason]) && !run.ended
    ensures AllServed(requests + [Request(run.database, reason, |runs|, InRun(|runs|))],
                      states[run.database := FlushState(|runs|, None)], runs + [run])
  {
    var states', runs' := states[run.database := FlushState(|runs|, None)], runs + [run];
    MergedDemandIsTheStrongest([reason]);
    assert Rank(DemandOf([reason][0])) <= Rank(run.demand);
    assert runs'[|runs|] == run;
    forall r | 0 <= r < |requests| ensures Served(requests[r], states', runs') {
      assert Served(requests[r], states, runs);
    }
  }

  /**
   * A request under `online` that begins no attempt: nobody is registered, its run throws at once, or it joins a follow-up
   * queued before the run of another database published.
   */
  predicate LeavesOnline(registered: bool, states: map<nat, FlushState>, database: nat, throws: bool) {
    !registered || if database in states then states[database].followUp.Some? else throws
  }

  class Dispatcher {
    const connection: Connection
    var registered: bool
    var states: map<nat, FlushState>
    var runs: seq<Run>
    var requests: seq<Request>

    ghost predicate Valid()
      reads this, connection
    {
      && connection.Valid()
      && RunsAreKept(states, runs, connection.generation)
      && AllServed(requests, states, runs)
    }

    constructor ()
      ensures Valid() && fresh(connection) && states == map[] && runs == [] && requests == [] && !registered
      ensures connection.generation == 0
    {
      connection := new Connection();
      registered, states, runs, requests := false, map[], [], [];
    }

    method Register(on: bool)
      requires Valid()
      modifies `registered
      ensures Valid() && registered == on
    {
      registered := on;
    }

    /** New durable work, or a lost pairing, is noticed: every run begun so far is stale. */
    method NoticeWork(forget: bool)
      requires Valid()
      modifies connection`generation, connection`snapshot, connection`onlineBy
      ensures Valid() && connection.generation == old(connection.generation) + 1 && !connection.snapshot.kind.Online?
    {
      connection.Invalidate(forget);
      StalerRunsAreKept(states, runs, old(connection.generation), connection.generation);
    }

    /** A run publishes what its attempt came to. */
    method Publish(attempt: nat, verdict: Verdict)
      requires Valid()
      modifies connection`snapshot, connection`onlineBy
      ensures Valid()
      ensures connection.snapshot
        == if attempt == connection.generation then Published(old(connection.snapshot), verdict) else old(connection.snapshot)
      ensures attempt == connection.generation && verdict.Succeeded? ==> connection.onlineBy == Some(attempt)
    {
      connection.Mark(attempt, verdict);
    }

    /** Starts one run now: its dispatcher begins its attempt before anyone else acts, or throws at once. */
    method StartFlush(database: nat, reasons: seq<Reason>, throws: bool)
      requires connection.Valid() && RunsAreKept(states, runs, connection.generation) && database !in states
      modifies `states, `runs, connection
      ensures connection.Valid() && RunsAreKept(states, runs, connection.generation)
      ensures states == old(states)[database := FlushState(|old(runs)|, None)]
      ensures connection.generation == if throws then old(connection.generation) else old(connection.generation) + 1
      ensures var attempt := if throws then None else Some(connection.generation);
        runs == old(runs) + [Run(database, MergeSnapshotHealDemands(reasons), attempt, false)]
      ensures if throws then unchanged(connection) else connection.snapshot.kind.Syncing?
    {
      var attempt := None;
      if !throws {
        var generation := connection.Begin();
        attempt := Some(generation);
      }
      var run := Run(database, MergeSnapshotHealDemands(reasons), attempt, false);
      RunStarts(states, runs, old(connection.generation), connection.generation, run);
      states := states[database := FlushState(|runs|, None)];
      runs := runs + [run];
    }

    /** The one entry point: no dispatcher settles a request with nothing sent; a run in flight queues one follow-up. */
    method RequestFlush(database: nat, reason: Reason, throws: bool)
      requires Valid()
      modifies `states, `runs, `requests, connection
      ensures Valid()
      ensures |requests| == |old(requests)| + 1 && requests[..|old(requests)|] == old(requests)
      ensures var service :=
          if !registered then ByNone else if database in old(states) then InFollowUp else InRun(|old(runs)|);
        requests[|old(requests)|] == Request(database, reason, |old(runs)|, service)
      ensures !registered || database in old(states) ==> runs == old(runs)
      ensures !registered ==> states == old(states) && unchanged(connection)
      ensures registered && database !in old(states) ==>
        var attempt := if throws then None else Some(connection.generation);
        && runs == old(runs) + [Run(database, DemandOf(reason), attempt, false)]
        && states == old(states)[database := FlushState(|old(runs)|, None)]
        && (if throws then unchanged(connection) else connection.generation == old(connection.generation) + 1)
      ensures registered && database in old(states) ==>
        var reasons := if old(states)[database].followUp.Some? then old(states)[database].followUp.value else [];
        && states == old(states)[database := FlushState(old(states)[database].run, Some(reasons + [reason]))]
        && (old(states)[database].followUp.Some? ==> unchanged(connection))
      ensures old(connection.snapshot).kind.Online? ==>
        (connection.snapshot.kind.Online? <==> LeavesOnline(registered, old(states), database, throws))
    {
      OneReason(reason);
      hide RunsAreKept, AllServed, MergeSnapshotHealDemands, DemandOf;
      var made := |runs|;
      if !registered {
        NobodyServes(requests, states, runs, Request(database, reason, made, ByNone));
        requests := requests + [Request(database, reason, made, ByNone)];
      } else if database !in states {
        ghost var states0, runs0, generation := states, runs, connection.generation;
        StartFlush(database, [reason], throws);
        RequestStarts(requests, states0, runs0, generation, runs[|runs0|], reason);
        requests := requests + [Request(database, reason, made, InRun(made))];
      } else {
        ghost var generation := connection.generation;
        var state := states[database];
        var reasons := if state.followUp.Some? then state.followUp.value else [];
        if state.followUp.None? {
          var attempt := connection.Begin();
        }
        RequestJoins(requests, states, runs, generation, connection.generation, database, reason);
        states := states[database := FlushState(state.run, Some(reasons + [reason]))];
        requests := requests + [Request(database, reason, made, InFollowUp)];
      }
    }

    /** Starts the follow-up of a run just over, or tells its requests that nobody is left to send them. */
    method StartFollowUp(database: nat, reasons: seq<Reason>, throws: bool) returns (next: Service)
      requires connection.Valid() && RunsAreKept(states, runs, connection.generation) && database !in states
      modifies `states, `runs, connection
      ensures connection.Valid() && RunsAreKept(states, runs, connection.generation)
      ensures next == if registered then InRun(|old(runs)|) else ByNone
      ensures registered ==>
        && states == old(states)[database := FlushState(|old(runs)|, None)]
        && |runs| == |old(runs)| + 1 && runs[..|old(runs)|] == old(runs)
        && runs[|old(runs)|].database == database && !runs[|old(runs)|].ended
        && runs[|old(runs)|].demand == MergeSnapshotHealDemands(reasons)
      ensures !registered ==> states == old(states) && runs == old(runs) && connection.snapshot.kind.Idle?
    {
      hide RunsAreKept, MergeSnapshotHealDemands;
      if registered {
        next := InRun(|runs|);
        StartFlush(database, reasons, throws);
      } else {
        next := ByNone;
        connection.Invalidate(false);
        StalerRunsAreKept(states, runs, old(connection.generation), connection.generation);
      }
    }

    /** A run settled: its requests are over, and its follow-up starts with whoever is registered now. */
    method SettleFlush(database: nat, throws: bool)
      requires Valid() && database in states
      modifies `states, `runs, `requests, connection
      ensures Valid()
      ensures var state := old(states)[database];
        && state.run < |runs| && runs[state.run].ended
        && requests == AfterRun(old(requests), database, state.run,
             if state.followUp.Some? && registered then InRun(|old(runs)|) else ByNone)
        && (state.followUp.Some? && registered ==> |runs| == |old(runs)| + 1 && database in states)
        && (state.followUp.None? || !registered ==> |runs| == |old(runs)| && states == old(states) - {database})
        && (state.followUp.Some? && !registered ==> connection.snapshot.kind.Idle?)
        && (state.followUp.None? ==>
              runs == old(runs)[state.run := old(runs)[state.run].(ended := true)] && unchanged(connection))
    {
      ghost var states0, runs0 := states, runs;
      var state := states[database];
      RunEnds(states, runs, connection.generation, database);
      assert state.run < |runs|;
      hide RunsAreKept, AllServed, MergeSnapshotHealDemands, AfterRun, Served, DemandOf, Rank, AttemptBelow, AllBelow;
      states := states - {database};
      runs := runs[state.run := runs[state.run].(ended := true)];
      var next := ByNone;
      if state.followUp.Some? {
        next := StartFollowUp(database, state.followUp.value, throws);
      }
      EndingServesAll(requests, states0, runs0, old(connection.generation), database, states, runs, next);
      requests := AfterRun(requests, database, state.run, next);
    }
  }

  /** A request nobody took: no dispatcher was registered, or its run threw before it began an attempt. */
  predicate NeverTaken(request: Request, runs: seq<Run>) {
    match request.service
    case ByNone => true
    case InFollowUp => false
    case InRun(k) => k < |runs| && runs[k].attempt.None?
    case ByRun(k) => k < |runs| && runs[k].attempt.None?
  }

  /** A request the run did not read: of its database, and made after the run started. */
  predicate Missed(request: Request, runs: seq<Run>, k: nat)
    requires k < |runs|
  {
    request.database == runs[k].database && request.madeAt > k
  }

  lemma LaterRequestsAreNotTaken(states: map<nat, FlushState>, runs: seq<Run>, generation: nat, request: Request, k: nat)
    requires RunsAreKept(states, runs, generation) && Served(request, states, runs) && k < |runs|
    requires runs[k].attempt == Some(generation) && Missed(request, runs, k)
    ensures NeverTaken(request, runs)
  {
    assert request.database in states && states[request.database].followUp.Some? ==>
      AllBelow(runs, request.database, generation);
  }

  /**
   * `online` is never shown over work its run did not read, for as long as it is shown: whether that run is still active
   * or long over, no newer attempt or notice of work has come since it began, no request waits behind it, and a request
   * of its database made after it started is one nobody took.
   */
  lemma OnlineIsHonest(dispatcher: Dispatcher, k: nat)
    requires dispatcher.Valid() && dispatcher.connection.snapshot.kind.Online?
    requires k < |dispatcher.runs| && dispatcher.runs[k].attempt.Some?
    requires dispatcher.connection.onlineBy == dispatcher.runs[k].attempt
    ensures dispatcher.runs[k].attempt == Some(dispatcher.connection.generation)
    ensures var database := dispatcher.runs[k].database;
      database in dispatcher.states ==> dispatcher.states[database].followUp.None?
    ensures forall j | k < j < |dispatcher.runs| :: dispatcher.runs[j].attempt.None?
    ensures forall r | 0 <= r < |dispatcher.requests| && Missed(dispatcher.requests[r], dispatcher.runs, k) ::
      NeverTaken(dispatcher.requests[r], dispatcher.runs)
  {
    var runs, generation := dispatcher.runs, dispatcher.connection.generation;
    assert runs[k].database in dispatcher.states && dispatcher.states[runs[k].database].followUp.Some? ==>
      AllBelow(runs, runs[k].database, generation);
    forall r | 0 <= r < |dispatcher.requests| && Missed(dispatcher.requests[r], runs, k)
      ensures NeverTaken(dispatcher.requests[r], runs)
    {
      LaterRequestsAreNotTaken(dispatcher.states, runs, generation, dispatcher.requests[r], k);
    }
  }

  /** The first of the two: asked for while nobody is registered, a request is settled with nothing sent under `online`. */
  method OnlineOverAnUnregisteredRequest(database: nat, at: int) returns (dispatcher: Dispatcher)
    ensures dispatcher.Valid() && dispatcher.connection.snapshot.kind.Online?
    ensures |dispatcher.runs| == 1 && dispatcher.runs[0].attempt.Some?
    ensures dispatcher.connection.onlineBy == dispatcher.runs[0].attempt
    ensures |dispatcher.requests| == 2 && dispatcher.requests[1].service == ByNone
    ensures Missed(dispatcher.requests[1], dispatcher.runs, 0)
  {
    dispatcher := OnlineAfterOneRun(database, at);
    dispatcher.Register(false);
    dispatcher.RequestFlush(database, Manual, false);
  }

  /** The second: a run that throws before it begins an attempt leaves `online` standing over the request it was for. */
  method OnlineOverAThrownRequest(database: nat, at: int) returns (dispatcher: Dispatcher)
    ensures dispatcher.Valid() && dispatcher.connection.snapshot.kind.Online?
    ensures |dispatcher.runs| == 2 && dispatcher.runs[0].attempt.Some? && dispatcher.runs[1].attempt.None?
    ensures dispatcher.connection.onlineBy == dispatcher.runs[0].attempt
    ensures |dispatcher.requests| == 2 && dispatcher.requests[1].service == InRun(1)
    ensures Missed(dispatcher.requests[1], dispatcher.runs, 0)
  {
    dispatcher := OnlineAfterOneRun(database, at);
    dispatcher.RequestFlush(database, Manual, true);
  }

  /** And a third, of another database than the one that published: a request that joins a follow-up already queued. */
  method OnlineOverAJoinedRequest(database: nat, other: nat, at: int) returns (dispatcher: Dispatcher)
    requires database != other
    ensures dispatcher.Valid() && dispatcher.connection.snapshot.kind.Online?
    ensures |dispatcher.runs| == 2 && dispatcher.runs[1].database == other
    ensures dispatcher.connection.onlineBy == dispatcher.runs[1].attempt
    ensures |dispatcher.requests| == 4
    ensures dispatcher.requests[3] == Request(database, Manual, 2, InFollowUp)
  {
    hide RunsAreKept, AllServed, DemandOf;
    dispatcher := WaitingBehindARun(database);
    dispatcher.RequestFlush(other, Manual, false);
    dispatcher.Publish(dispatcher.connection.generation, Succeeded(at));
    dispatcher.RequestFlush(database, Manual, false);
  }

  /** Two requests: one run, and a follow-up queued behind it. */
  method WaitingBehindARun(database: nat) returns (dispatcher: Dispatcher)
    ensures fresh(dispatcher) && fresh(dispatcher.connection) && dispatcher.Valid() && dispatcher.registered
    ensures dispatcher.states == map[database := FlushState(0, Some([Manual]))]
    ensures |dispatcher.runs| == 1 && |dispatcher.requests| == 2
  {
    hide RunsAreKept, AllServed, DemandOf;
    dispatcher := new Dispatcher();
    dispatcher.Register(true);
    dispatcher.RequestFlush(database, Manual, false);
    dispatcher.RequestFlush(database, Manual, false);
    assert [] + [Manual] == [Manual];
  }

  /** One request, one run that published `online`, and that run over. */
  method OnlineAfterOneRun(database: nat, at: int) returns (dispatcher: Dispatcher)
    ensures fresh(dispatcher) && fresh(dispatcher.connection) && dispatcher.Valid() && dispatcher.registered
    ensures dispatcher.connection.snapshot.kind.Online? && dispatcher.states == map[]
    ensures dispatcher.runs == [Run(database, Never, Some(1), true)]
    ensures dispatcher.connection.onlineBy == Some(1) && dispatcher.connection.generation == 1
    ensures dispatcher.requests == [Request(database, Manual, 0, ByRun(0))]
  {
    dispatcher := new Dispatcher();
    dispatcher.Register(true);
    dispatcher.RequestFlush(database, Manual, false);
    dispatcher.Publish(1, Succeeded(at));
    dispatcher.SettleFlush(database, false);
  }
}
