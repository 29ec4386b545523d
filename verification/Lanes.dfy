/** Bounded concurrency: lanes that each take the next item, under every interleaving of their workers. */
module Lanes {
  import opened Basics

  /** What one worker call comes to. */
  datatype WorkerOutcome = GoOn | Stop | Threw(error: string)

  datatype Event = Started(lane: nat, index: nat) | Ended(lane: nat, index: nat, outcome: WorkerOutcome)

  datatype Lane = Ready | Working(index: nat) | Over(error: Option<string>)

  datatype Result = Done(stopped: bool) | Failed(error: string)

  // ----- What a run may do, read off its events alone -----

  /** The items in flight, by lane. */
  function Busy(trace: seq<Event>): map<nat, nat> {
    if trace == [] then map[]
    else
      var before := Busy(trace[..|trace| - 1]);
      match trace[|trace| - 1]
      case Started(lane, index) => before[lane := index]
      case Ended(lane, _, _) => before - {lane}
  }

  function Starts(trace: seq<Event>): nat {
    if trace == [] then 0 else Starts(trace[..|trace| - 1]) + if trace[|trace| - 1].Started? then 1 else 0
  }

  predicate Halts(event: Event) { event.Ended? && !event.outcome.GoOn? }

  predicate Halted(trace: seq<Event>) { exists k | 0 <= k < |trace| :: Halts(trace[k]) }

  /** What may happen next: the next item in an idle lane while nothing halted the run, or the end of an item in flight. */
  predicate Allowed(trace: seq<Event>, event: Event, lanes: nat) {
    match event
    case Started(lane, index) =>
      lane < lanes && lane !in Busy(trace) && index == Starts(trace) && !Halted(trace)
    case Ended(lane, index, _) => lane in Busy(trace) && Busy(trace)[lane] == index
  }

  predicate ValidTrace(trace: seq<Event>, lanes: nat) {
    trace == []
    || (ValidTrace(trace[..|trace| - 1], lanes) && Allowed(trace[..|trace| - 1], trace[|trace| - 1], lanes))
  }

  lemma {:induction false} ValidAtEachStep(trace: seq<Event>, lanes: nat, k: nat)
    requires ValidTrace(trace, lanes) && k < |trace|
    ensures ValidTrace(trace[..k], lanes) && Allowed(trace[..k], trace[k], lanes)
  {
    if k == |trace| - 1 {
    } else {
      ValidAtEachStep(trace[..|trace| - 1], lanes, k);
      assert trace[..|trace| - 1][..k] == trace[..k];
    }
  }

  lemma {:induction false} BusyLanesAreLanes(trace: seq<Event>, lanes: nat)
    requires ValidTrace(trace, lanes)
    ensures forall lane | lane in Busy(trace) :: lane < lanes && Busy(trace)[lane] < Starts(trace)
    ensures |Busy(trace)| <= lanes
  {
    if trace != [] {
      BusyLanesAreLanes(trace[..|trace| - 1], lanes);
    }
    SubsetCount(Busy(trace).Keys, Below(lanes));
  }

  function Below(n: nat): (numbers: set<nat>)
    ensures |numbers| == n && forall k: nat :: k in numbers <==> k < n
  {
    if n == 0 then {} else Below(n - 1) + {n - 1}
  }

  lemma SubsetCount<T>(a: set<T>, b: set<T>)
    requires a <= b
    ensures |a| <= |b|
  {
    assert b == a + (b - a);
  }

  /**
   * At most `lanes` items are in flight at any moment, items start in index order, each at most once, and none starts
   * after a stop or a throw.
   */
  lemma LanesStayBounded(trace: seq<Event>, lanes: nat)
    requires ValidTrace(trace, lanes)
    ensures forall k | 0 <= k <= |trace| :: |Busy(trace[..k])| <= lanes
    ensures forall i, k | 0 <= i < k < |trace| && trace[i].Started? && trace[k].Started? :: trace[i].index < trace[k].index
    ensures forall i, k | 0 <= i < k < |trace| && Halts(trace[i]) :: !trace[k].Started?
  {
    forall k | 0 <= k <= |trace| ensures |Busy(trace[..k])| <= lanes {
      if k < |trace| {
        ValidAtEachStep(trace, lanes, k);
      } else {
        assert trace[..k] == trace;
      }
      BusyLanesAreLanes(trace[..k], lanes);
    }
    forall i, k | 0 <= i < k < |trace| && trace[k].Started?
      ensures !Halts(trace[i]) && (trace[i].Started? ==> trace[i].index < trace[k].index)
    {
      ValidAtEachStep(trace, lanes, k);
      ValidAtEachStep(trace, lanes, i);
      assert trace[..k][i] == trace[i];
      StartsGrow(trace[..k], i);
      assert trace[..k][..i] == trace[..i];
    }
  }

  lemma {:induction false} StartsGrow(trace: seq<Event>, i: nat)
    requires i < |trace|
    ensures Starts(trace[..i]) + (if trace[i].Started? then 1 else 0) <= Starts(trace)
  {
    var front := trace[..|trace| - 1];
    if i < |trace| - 1 {
      StartsGrow(front, i);
      assert front[..i] == trace[..i];
    }
  }

  // ----- The lanes -----

  /** How much the lanes can still do without taking an item. */
  function Weight(lanes: seq<Lane>): nat {
    if lanes == [] then 0
    else Weight(lanes[..|lanes| - 1]) + LaneWeight(lanes[|lanes| - 1])
  }

  function LaneWeight(lane: Lane): nat { match lane case Ready => 1 case Working(_) => 2 case Over(_) => 0 }

  lemma {:induction false} WeightUpdate(lanes: seq<Lane>, l: nat, lane: Lane)
    requires l < |lanes|
    ensures Weight(lanes[l := lane]) + LaneWeight(lanes[l]) == Weight(lanes) + LaneWeight(lane)
  {
    var front := lanes[..|lanes| - 1];
    if l < |lanes| - 1 {
      WeightUpdate(front, l, lane);
      assert lanes[l := lane][..|lanes| - 1] == front[l := lane];
    } else {
      assert lanes[l := lane][..|lanes| - 1] == front;
    }
  }

  /** The lanes as the trace left them. */
  ghost predicate LanesMatch(lanes: seq<Lane>, trace: seq<Event>, nextIndex: nat, stopped: bool, count: nat) {
    && ValidTrace(trace, |lanes|)
    && nextIndex == Starts(trace) <= count
    && (stopped <==> Halted(trace))
    && (forall l: nat :: l in Busy(trace) <==> l < |lanes| && lanes[l].Working?)
    && (forall l: nat | l in Busy(trace) :: lanes[l] == Working(Busy(trace)[l]))
    && (forall l | 0 <= l < |lanes| && lanes[l].Over? :: stopped || nextIndex == count)
    && forall l | 0 <= l < |lanes| :: ErrorMatches(lanes[l], l, trace)
  }

  /** A lane is over with an error exactly when its last item threw it, and it never ran again. */
  ghost predicate ErrorMatches(lane: Lane, l: nat, trace: seq<Event>) {
    && (lane.Over? && lane.error.Some? ==> exists index :: Ended(l, index, Threw(lane.error.value)) in trace)
    && (forall event | event in trace && event.Ended? && event.lane == l && event.outcome.Threw? ::
          lane == Over(Some(event.outcome.error)))
  }

  /** Runs one item; the worker may do anything. */
  method Work(index: nat) returns (outcome: WorkerOutcome) {
    outcome := *;
  }

  /** Some lane that is not over yet, if there is one: the event loop picks any. */
  method PickLane(lanes: seq<Lane>) returns (pick: Option<nat>)
    ensures pick.Some? ==> pick.value < |lanes| && !lanes[pick.value].Over?
    ensures pick.None? ==> forall l | 0 <= l < |lanes| :: lanes[l].Over?
  {
    var guess: int := *;
    if 0 <= guess < |lanes| && !lanes[guess].Over? {
      return Some(guess);
    }
    for l := 0 to |lanes|
      invariant forall k | 0 <= k < l :: lanes[k].Over?
    {
      if !lanes[l].Over? {
        return Some(l);
      }
    }
    return None;
  }

  lemma TraceOneMore(trace: seq<Event>, event: Event, lanes: nat)
    requires ValidTrace(trace, lanes) && Allowed(trace, event, lanes)
    ensures var longer := trace + [event];
      && ValidTrace(longer, lanes)
      && Starts(longer) == Starts(trace) + (if event.Started? then 1 else 0)
      && Busy(longer) == (if event.Started? then Busy(trace)[event.lane := event.index] else Busy(trace) - {event.lane})
      && (Halted(longer) <==> Halted(trace) || Halts(event))
      && forall other :: other in longer <==> other in trace || other == event
  {
    var longer := trace + [event];
    assert longer[..|longer| - 1] == trace;
    assert longer[|trace|] == event;
    if Halted(trace) {
      var k :| 0 <= k < |trace| && Halts(trace[k]);
      assert longer[k] == trace[k];
    }
  }

  /** A ready lane finds nothing to take, or takes the next item. */
  lemma LaneTakes(lanes: seq<Lane>, trace: seq<Event>, nextIndex: nat, stopped: bool, count: nat, l: nat)
    requires LanesMatch(lanes, trace, nextIndex, stopped, count) && l < |lanes| && lanes[l].Ready?
    ensures stopped || nextIndex >= count ==> LanesMatch(lanes[l := Over(None)], trace, nextIndex, stopped, count)
    ensures !stopped && nextIndex < count ==>
      LanesMatch(lanes[l := Working(nextIndex)], trace + [Started(l, nextIndex)], nextIndex + 1, stopped, count)
  {
    hide Busy, Starts, Halted;
    if !stopped && nextIndex < count {
      TraceOneMore(trace, Started(l, nextIndex), |lanes|);
      hide ValidTrace, Allowed;
    }
  }

  /** A working lane ends its item: ready again, or over with the whole run halted. */
  lemma LaneEnds(lanes: seq<Lane>, trace: seq<Event>, nextIndex: nat, stopped: bool, count: nat, l: nat,
                 outcome: WorkerOutcome)
    requires LanesMatch(lanes, trace, nextIndex, stopped, count) && l < |lanes| && lanes[l].Working?
    ensures var lane := if outcome.GoOn? then Ready else Over(if outcome.Threw? then Some(outcome.error) else None);
      LanesMatch(lanes[l := lane], trace + [Ended(l, lanes[l].index, outcome)], nextIndex,
                 stopped || !outcome.GoOn?, count)
  {
    hide Busy, Starts, Halted;
    var ended := Ended(l, lanes[l].index, outcome);
    assert l in Busy(trace);
    TraceOneMore(trace, ended, |lanes|);
    hide ValidTrace, Allowed;
    assert ended in trace + [ended];
  }

  /**
   * Drives `count` items through a worker with at most `limit` in flight. It ends with nothing in flight; unless it was
   * stopped, every item ran exactly once; and it rethrows the error of the lowest lane that caught one. `trace` is the
   * record of what its lanes did.
   */
  method RunWithConcurrency(count: nat, limit: int) returns (result: Result, trace: seq<Event>)
    ensures var lanes := if limit <= 0 then 0 else if limit < count then limit else count;
      ValidTrace(trace, lanes)
    ensures Busy(trace) == map[]
    ensures result.Done? ==> (result.stopped <==> Halted(trace))
    ensures !Halted(trace) && limit > 0 ==> Starts(trace) == count
    ensures limit <= 0 ==> trace == [] && result == Done(false)
    ensures result.Done? <==> forall event | event in trace && event.Ended? :: !event.outcome.Threw?
    ensures result.Failed? ==>
      exists lane: nat, index: nat :: Ended(lane, index, Threw(result.error)) in trace
        && forall event | event in trace && event.Ended? && event.outcome.Threw? :: lane <= event.lane
  {
    var boundedLimit := if limit <= 0 then 0 else if limit < count then limit else count;
    trace := [];
    if boundedLimit == 0 {
      return Done(false), trace;
    }
    var nextIndex: nat, stopped := 0, false;
    var lanes: seq<Lane> := seq(boundedLimit, _ => Ready);
    var pick: Option<nat> := PickLane(lanes);
    while pick.Some?
      invariant |lanes| == boundedLimit && LanesMatch(lanes, trace, nextIndex, stopped, count)
      invariant pick.Some? ==> pick.value < |lanes| && !lanes[pick.value].Over?
      invariant pick.None? ==> forall l | 0 <= l < |lanes| :: lanes[l].Over?
      decreases 2 * (count - nextIndex) + Weight(lanes)
    {
      hide LanesMatch;
      var l: nat := pick.value;
      if lanes[l].Ready? {
        LaneTakes(lanes, trace, nextIndex, stopped, count, l);
        NextIndexInRange(lanes, trace, nextIndex, stopped, count);
        if stopped || nextIndex >= count {
          WeightUpdate(lanes, l, Over(None));
          lanes := lanes[l := Over(None)];
        } else {
          WeightUpdate(lanes, l, Working(nextIndex));
          trace := trace + [Started(l, nextIndex)];
          lanes := lanes[l := Working(nextIndex)];
          nextIndex := nextIndex + 1;
        }
      } else {
        var outcome := Work(lanes[l].index);
        LaneEnds(lanes, trace, nextIndex, stopped, count, l, outcome);
        var lane := if outcome.GoOn? then Ready else Over(if outcome.Threw? then Some(outcome.error) else None);
        WeightUpdate(lanes, l, lane);
        trace := trace + [Ended(l, lanes[l].index, outcome)];
        lanes := lanes[l := lane];
        stopped := stopped || !outcome.GoOn?;
      }
      pick := PickLane(lanes);
    }
    LanesAreOver(lanes, trace, nextIndex, stopped, count);
    for l := 0 to |lanes|
      invariant forall k | 0 <= k < l :: lanes[k].error.None?
    {
      if lanes[l].error.Some? {
        LowestError(lanes, trace, nextIndex, stopped, count, l);
        return Failed(lanes[l].error.value), trace;
      }
    }
    NoErrors(lanes, trace, nextIndex, stopped, count);
    return Done(stopped), trace;
  }

  lemma NextIndexInRange(lanes: seq<Lane>, trace: seq<Event>, nextIndex: nat, stopped: bool, count: nat)
    requires LanesMatch(lanes, trace, nextIndex, stopped, count)
    ensures nextIndex <= count
  {
  }

  lemma LanesAreOver(lanes: seq<Lane>, trace: seq<Event>, nextIndex: nat, stopped: bool, count: nat)
    requires LanesMatch(lanes, trace, nextIndex, stopped, count) && lanes != []
    requires forall l | 0 <= l < |lanes| :: lanes[l].Over?
    ensures ValidTrace(trace, |lanes|) && Busy(trace) == map[] && (stopped <==> Halted(trace))
    ensures !Halted(trace) ==> Starts(trace) == count
  {
    assert lanes[0].Over?;
    assert forall l: nat :: l !in Busy(trace);
  }

  lemma LowestError(lanes: seq<Lane>, trace: seq<Event>, nextIndex: nat, stopped: bool, count: nat, l: nat)
    requires LanesMatch(lanes, trace, nextIndex, stopped, count) && l < |lanes|
    requires forall k | 0 <= k < |lanes| :: lanes[k].Over?
    requires lanes[l].error.Some? && forall k | 0 <= k < l :: lanes[k].error.None?
    ensures exists index :: Ended(l, index, Threw(lanes[l].error.value)) in trace
    ensures forall event | event in trace && event.Ended? && event.outcome.Threw? :: l <= event.lane
  {
    assert ErrorMatches(lanes[l], l, trace);
    forall event | event in trace && event.Ended? && event.outcome.Threw? ensures l <= event.lane {
      EndedInALane(trace, |lanes|, event);
      assert ErrorMatches(lanes[event.lane], event.lane, trace);
    }
  }

  lemma NoErrors(lanes: seq<Lane>, trace: seq<Event>, nextIndex: nat, stopped: bool, count: nat)
    requires LanesMatch(lanes, trace, nextIndex, stopped, count)
    requires forall k | 0 <= k < |lanes| :: lanes[k].Over? && lanes[k].error.None?
    ensures forall event | event in trace && event.Ended? :: !event.outcome.Threw?
  {
    forall event | event in trace && event.Ended? ensures !event.outcome.Threw? {
      EndedInALane(trace, |lanes|, event);
      assert ErrorMatches(lanes[event.lane], event.lane, trace);
    }
  }

  lemma EndedInALane(trace: seq<Event>, lanes: nat, event: Event)
    requires ValidTrace(trace, lanes) && event in trace && event.Ended?
    ensures event.lane < lanes
  {
    var k :| 0 <= k < |trace| && trace[k] == event;
    ValidAtEachStep(trace, lanes, k);
    BusyLanesAreLanes(trace[..k], lanes);
  }
}
