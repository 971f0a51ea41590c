/** The ferry terminal of `SimScenario` as a state machine. Each step is one
    stretch of a simulation process; a store operation it yields on is taken
    together with the counter update and log entry that follow it. The
    scheduler that decides which step runs next, the clock and the random
    draws are inputs to the steps. */
module Scenario {
  import opened Vessels
  import opened Events

  /** The terminal between two steps.
      - `fleet`: every vessel object, vessel i at position i;
      - `dock`: the names held by the vessel store, in store order (at dock);
      - `transit`: the departed vessels whose return process has not yet fired;
      - `queue`: the number of vehicles in the vehicle store;
      - `vehiclesTotal`: the running arrival counter;
      - `spawned`: embark processes spawned by an arrival that have not started;
      - `reserved`: for each started embark process that reserved a slot and
        is waiting out its service time, the name of its vessel;
      - `log`: the events appended so far. */
  datatype State = State(
    fleet: seq<Vessel>,
    dock: seq<nat>,
    transit: seq<Trip>,
    queue: nat,
    vehiclesTotal: nat,
    spawned: nat,
    reserved: seq<nat>,
    log: seq<Event>)

  /** Every name the state mentions names a vessel of the fleet. */
  predicate WellFormed(s: State)
  {
    && Bounded(s.dock, |s.fleet|)
    && Bounded(Names(s.transit), |s.fleet|)
    && Bounded(s.reserved, |s.fleet|)
  }

  /** The load of the vessel named v. */
  function LoadOf(s: State, v: nat): nat
    requires v < |s.fleet|
  {
    s.fleet[v].usedCapacity
  }

  /** The terminal after construction: `vesselsNumber` vessels (none when the
      number is negative, as `range` gives nothing) put into the store in name
      order, each with the load a fresh vessel starts with. */
  function Init(vesselsNumber: int, initialLoad: nat): (s: State)
    ensures WellFormed(s)
    ensures |s.fleet| == (if vesselsNumber < 0 then 0 else vesselsNumber)
    ensures forall v :: 0 <= v < |s.fleet| ==> s.fleet[v].name == v && s.fleet[v].usedCapacity == initialLoad
    ensures |s.dock| == |s.fleet| && forall k :: 0 <= k < |s.dock| ==> s.dock[k] == k
    ensures s.transit == [] && s.reserved == [] && s.log == []
    ensures s.queue == 0 && s.vehiclesTotal == 0 && s.spawned == 0
  {
    var n: nat := if vesselsNumber < 0 then 0 else vesselsNumber;
    State(Fleet(n, initialLoad), Range(n), [], 0, 0, 0, [], [])
  }

  /** A vehicle arrives: it is put in the queue, counted, logged with the queue
      length after the put, and an embark process is spawned for it. */
  function Arrive(s: State, now: real): (r: State)
    ensures r.queue == s.queue + 1 && r.vehiclesTotal == s.vehiclesTotal + 1
    ensures r.spawned == s.spawned + 1
    ensures |r.log| == |s.log| + 1 && r.log[..|s.log|] == s.log
    ensures r.log[|s.log|] == Arrival(now, r.queue)
    ensures r.fleet == s.fleet && r.dock == s.dock && r.transit == s.transit && r.reserved == s.reserved
  {
    var q := s.queue + 1;
    s.(queue := q, vehiclesTotal := s.vehiclesTotal + 1, spawned := s.spawned + 1,
       log := s.log + [Arrival(now, q)])
  }

  /** The choice `random.choice` makes among the eligible vessels: any position
      of the eligible list when there is one (the pick is ignored otherwise). */
  predicate ValidPick(s: State, capacity: nat, pick: nat)
    requires WellFormed(s)
  {
    var eligible := Eligible(s.fleet, s.dock, capacity);
    |eligible| == 0 || pick < |eligible|
  }

  /** Some at-dock vessel has a free slot. */
  predicate HasFreeSlot(s: State, capacity: nat)
    requires WellFormed(s)
  {
    |Eligible(s.fleet, s.dock, capacity)| > 0
  }

  /** The vessel `random.choice` returns for the given pick. */
  function Chosen(s: State, capacity: nat, pick: nat): (v: nat)
    requires WellFormed(s) && HasFreeSlot(s, capacity) && ValidPick(s, capacity, pick)
    ensures v in s.dock && v < |s.fleet| && LoadOf(s, v) < capacity
  {
    var eligible := Eligible(s.fleet, s.dock, capacity);
    assert eligible[pick] in eligible;
    eligible[pick]
  }

  /** Every at-dock vessel with a free slot is the outcome of some pick, so a
      property proved for all picks holds whichever vessel `random.choice`
      returns. */
  lemma ChosenCovers(s: State, capacity: nat, v: nat)
    requires WellFormed(s) && v in s.dock && v < |s.fleet| && LoadOf(s, v) < capacity
    ensures HasFreeSlot(s, capacity)
    ensures exists pick :: ValidPick(s, capacity, pick) && Chosen(s, capacity, pick) == v
  {
    var e := Eligible(s.fleet, s.dock, capacity);
    assert v in e;
    var p :| 0 <= p < |e| && e[p] == v;
    assert ValidPick(s, capacity, p) && Chosen(s, capacity, p) == v;
  }

  /** A spawned embark process starts: it looks for at-dock vessels with a free
      slot; when there are some it reserves a slot on the picked one at once,
      before its service delay, and waits; otherwise it ends without boarding. */
  function Reserve(s: State, capacity: nat, pick: nat): (r: State)
    requires WellFormed(s) && s.spawned > 0 && ValidPick(s, capacity, pick)
    ensures r.spawned == s.spawned - 1
    ensures r.dock == s.dock && r.transit == s.transit && r.queue == s.queue
    ensures r.vehiclesTotal == s.vehiclesTotal && r.log == s.log
    ensures |r.fleet| == |s.fleet|
    ensures (forall v :: v in s.dock ==> LoadOf(s, v) >= capacity) ==> r.fleet == s.fleet && r.reserved == s.reserved
    ensures HasFreeSlot(s, capacity) ==>
      var v := Chosen(s, capacity, pick);
      && r.reserved == s.reserved + [v]
      && r.fleet[v].name == s.fleet[v].name
      && r.fleet[v].usedCapacity == s.fleet[v].usedCapacity + 1
      && forall w :: 0 <= w < |s.fleet| && w != v ==> r.fleet[w] == s.fleet[w]
  {
    if !HasFreeSlot(s, capacity) then
      s.(spawned := s.spawned - 1)
    else
      var v := Chosen(s, capacity, pick);
      s.(spawned := s.spawned - 1,
         fleet := s.fleet[v := s.fleet[v].(usedCapacity := s.fleet[v].usedCapacity + 1)],
         reserved := s.reserved + [v])
  }

  /** The embark process holding reservation k ends its service delay: it takes
      one vehicle from the queue (the store hands one over only when it is not
      empty) and logs the boarding with its vessel's load at that moment. */
  function Board(s: State, k: nat, now: real): (r: State)
    requires WellFormed(s) && k < |s.reserved| && s.queue > 0
    ensures r.queue == s.queue - 1
    ensures r.reserved == s.reserved[..k] + s.reserved[k + 1..]
    ensures r.log == s.log + [Boarding(now, s.reserved[k], r.queue, LoadOf(s, s.reserved[k]))]
    ensures r.fleet == s.fleet && r.dock == s.dock && r.transit == s.transit
    ensures r.vehiclesTotal == s.vehiclesTotal && r.spawned == s.spawned
  {
    var v := s.reserved[k];
    var q := s.queue - 1;
    s.(queue := q, reserved := s.reserved[..k] + s.reserved[k + 1..],
       log := s.log + [Boarding(now, v, q, s.fleet[v].usedCapacity)])
  }

  /** The position in the dock of the vessel the departure process takes. */
  function Departing(s: State): (j: nat)
    requires WellFormed(s) && |s.dock| > 0
    ensures j < |s.dock|
    ensures forall i :: 0 <= i < |s.dock| ==> LoadOf(s, s.dock[i]) <= LoadOf(s, s.dock[j])
    ensures forall i :: 0 <= i < j ==> LoadOf(s, s.dock[i]) < LoadOf(s, s.dock[j])
  {
    var loads := Loads(s.fleet, s.dock);
    var j := Fullest(loads);
    assert forall i :: 0 <= i < |s.dock| ==> loads[i] == LoadOf(s, s.dock[i]);
    j
  }

  /** The two-crossing-plus-disembark time a departed vessel stays away. */
  function IdleTime(crossingTime: real, disembarkDraws: seq<real>): real
  {
    2.0 * crossingTime + Sum(disembarkDraws)
  }

  /** A departed vessel stays away at least two crossings, exactly two when it
      carried nothing, and each vehicle it carried adds its own disembark draw. */
  lemma IdleTimeBounds(crossingTime: real, disembarkDraws: seq<real>, draw: real)
    requires forall i :: 0 <= i < |disembarkDraws| ==> disembarkDraws[i] >= 0.0
    ensures IdleTime(crossingTime, disembarkDraws) >= 2.0 * crossingTime
    ensures |disembarkDraws| == 0 ==> IdleTime(crossingTime, disembarkDraws) == 2.0 * crossingTime
    ensures IdleTime(crossingTime, disembarkDraws + [draw]) == IdleTime(crossingTime, disembarkDraws) + draw
  {
    SumNonNegative(disembarkDraws);
    SumAppend(disembarkDraws, draw);
  }

  /** The departure process wakes at `now` and takes the fullest vessel out of
      the store: it logs the departure with the vessel's load, notes that load
      as the number of vehicles to disembark, empties the vessel, and spawns its
      return process with one disembark draw per vehicle. */
  function Depart(s: State, now: real, crossingTime: real, disembarkDraws: seq<real>): (r: State)
    requires WellFormed(s) && |s.dock| > 0
    requires |disembarkDraws| == LoadOf(s, s.dock[Departing(s)])
    ensures var j := Departing(s); var v := s.dock[j];
      && r.dock == s.dock[..j] + s.dock[j + 1..]
      && r.transit == s.transit + [Trip(v, IdleTime(crossingTime, disembarkDraws))]
      && r.log == s.log + [Departure(now, v, s.queue, LoadOf(s, v))]
      && |r.fleet| == |s.fleet|
      && r.fleet[v].name == s.fleet[v].name && r.fleet[v].usedCapacity == 0
      && forall w :: 0 <= w < |s.fleet| && w != v ==> r.fleet[w] == s.fleet[w]
    ensures r.queue == s.queue && r.vehiclesTotal == s.vehiclesTotal
    ensures r.spawned == s.spawned && r.reserved == s.reserved
  {
    var j := Departing(s);
    var v := s.dock[j];
    s.(dock := s.dock[..j] + s.dock[j + 1..],
       transit := s.transit + [Trip(v, IdleTime(crossingTime, disembarkDraws))],
       fleet := s.fleet[v := s.fleet[v].(usedCapacity := 0)],
       log := s.log + [Departure(now, v, s.queue, s.fleet[v].usedCapacity)])
  }

  /** The return process of trip k fires at `now`: it logs the return and puts
      the vessel back at the end of the store. */
  function ReturnVessel(s: State, k: nat, now: real): (r: State)
    requires WellFormed(s) && k < |s.transit|
    ensures r.dock == s.dock + [s.transit[k].vessel]
    ensures r.transit == s.transit[..k] + s.transit[k + 1..]
    ensures r.log == s.log + [Return(now, s.transit[k].vessel, s.queue)]
    ensures r.fleet == s.fleet && r.queue == s.queue && r.vehiclesTotal == s.vehiclesTotal
    ensures r.spawned == s.spawned && r.reserved == s.reserved
  {
    var v := s.transit[k].vessel;
    s.(dock := s.dock + [v], transit := s.transit[..k] + s.transit[k + 1..],
       log := s.log + [Return(now, v, s.queue)])
  }

  /** One scheduler-chosen step, with the inputs the scheduler and the random
      source supply. */
  datatype Step =
    | VehicleArrives(now: real)
    | EmbarkStarts(pick: nat)
    | VehicleBoards(k: nat, now: real)
    | VesselDeparts(now: real, crossingTime: real, disembarkDraws: seq<real>)
    | VesselReturns(k: nat, now: real)

  /** The step can run in state s: its process is waiting to resume and, for
      the store operations, the store can serve it. */
  predicate Enabled(s: State, capacity: nat, step: Step)
  {
    WellFormed(s) &&
    match step
    case VehicleArrives(_) => true
    case EmbarkStarts(pick) => s.spawned > 0 && ValidPick(s, capacity, pick)
    case VehicleBoards(k, _) => k < |s.reserved| && s.queue > 0
    case VesselDeparts(_, _, draws) => |s.dock| > 0 && |draws| == LoadOf(s, s.dock[Departing(s)])
    case VesselReturns(k, _) => k < |s.transit|
  }

  function Next(s: State, capacity: nat, step: Step): State
    requires Enabled(s, capacity, step)
  {
    match step
    case VehicleArrives(now) => Arrive(s, now)
    case EmbarkStarts(pick) => Reserve(s, capacity, pick)
    case VehicleBoards(k, now) => Board(s, k, now)
    case VesselDeparts(now, crossing, draws) => Depart(s, now, crossing, draws)
    case VesselReturns(k, now) => ReturnVessel(s, k, now)
  }

  /** Every step of `steps` is enabled in the state the previous ones lead to. */
  predicate ValidRun(s: State, capacity: nat, steps: seq<Step>)
    decreases |steps|
  {
    |steps| == 0 ||
    (Enabled(s, capacity, steps[0]) && ValidRun(Next(s, capacity, steps[0]), capacity, steps[1..]))
  }

  function Run(s: State, capacity: nat, steps: seq<Step>): State
    requires ValidRun(s, capacity, steps)
    decreases |steps|
  {
    if |steps| == 0 then s else Run(Next(s, capacity, steps[0]), capacity, steps[1..])
  }
}
