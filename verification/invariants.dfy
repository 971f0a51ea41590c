/** The invariants the terminal keeps across every step, and what they say
    about the vessels and the queue in any state a run can reach. */
module Invariants {
  import opened Vessels
  import opened Events
  import opened Scenario

  /** Position v of the fleet holds the vessel named v. */
  predicate Named(s: State)
  {
    forall v :: 0 <= v < |s.fleet| ==> s.fleet[v].name == v
  }

  /** No vessel holds more reservations than a vessel has slots. */
  predicate CapacityBound(s: State, capacity: nat)
  {
    forall v :: 0 <= v < |s.fleet| ==> s.fleet[v].usedCapacity <= capacity
  }

  /** The dock and the trips together list every vessel of the fleet exactly once. */
  predicate Partition(s: State)
  {
    multiset(s.dock + Names(s.transit)) == multiset(Range(|s.fleet|))
  }

  /** A vessel away from the dock carries no reservations. */
  predicate AwayEmpty(s: State)
    requires WellFormed(s)
  {
    forall k :: 0 <= k < |s.transit| ==> LoadOf(s, Names(s.transit)[k]) == 0
  }

  /** The counters agree with the log: every arrival is logged, every vehicle
      that left the queue is logged as boarded, and every embark process that
      may still take a vehicle has one waiting in the queue. */
  predicate QueueAccounting(s: State)
  {
    && s.vehiclesTotal == Arrivals(s.log)
    && s.queue + Boardings(s.log) == s.vehiclesTotal
    && s.spawned + |s.reserved| <= s.queue
  }

  predicate Inv(s: State, capacity: nat)
  {
    && WellFormed(s)
    && Named(s)
    && CapacityBound(s, capacity)
    && Partition(s)
    && AwayEmpty(s)
    && QueueAccounting(s)
  }

  /** Each vessel of the fleet is either at dock or away, never both, and
      nothing else is at dock or away. */
  lemma AtDockXorAway(s: State, v: nat)
    requires Partition(s)
    ensures v < |s.fleet| <==> (v in s.dock || v in Names(s.transit))
    ensures !(v in s.dock && v in Names(s.transit))
  {
    RangeCount(|s.fleet|, v);
    assert multiset(s.dock + Names(s.transit))[v]
        == multiset(s.dock)[v] + multiset(Names(s.transit))[v];
  }

  /** The number at dock plus the number away is the size of the fleet. */
  lemma PartitionCount(s: State)
    requires Partition(s)
    ensures |s.dock| + |s.transit| == |s.fleet|
  {
    assert |multiset(s.dock + Names(s.transit))| == |s.dock| + |s.transit|;
    assert |multiset(Range(|s.fleet|))| == |s.fleet|;
  }

  /** The constructed terminal satisfies the invariant, provided a fresh vessel
      does not start above capacity. */
  lemma InitEstablishesInv(vesselsNumber: int, initialLoad: nat, capacity: nat)
    requires initialLoad <= capacity
    ensures Inv(Init(vesselsNumber, initialLoad), capacity)
  {
  }

  lemma ArrivePreservesInv(s: State, capacity: nat, now: real)
    requires Inv(s, capacity)
    ensures Inv(Arrive(s, now), capacity)
  {
  }

  /** The reserved vessel is at dock, so no trip's vessel gains a reservation. */
  lemma ReserveKeepsAwayEmpty(s: State, capacity: nat, pick: nat)
    requires WellFormed(s) && Partition(s) && AwayEmpty(s)
    requires s.spawned > 0 && ValidPick(s, capacity, pick)
    ensures WellFormed(Reserve(s, capacity, pick))
    ensures AwayEmpty(Reserve(s, capacity, pick))
  {
    var r := Reserve(s, capacity, pick);
    if HasFreeSlot(s, capacity) {
      var v := Chosen(s, capacity, pick);
      AtDockXorAway(s, v);
      forall k | 0 <= k < |s.transit|
        ensures LoadOf(r, Names(r.transit)[k]) == 0
      {
        assert Names(s.transit)[k] in Names(s.transit);
      }
    }
  }

  lemma ReservePreservesInv(s: State, capacity: nat, pick: nat)
    requires Inv(s, capacity) && s.spawned > 0 && ValidPick(s, capacity, pick)
    ensures Inv(Reserve(s, capacity, pick), capacity)
  {
    ReserveKeepsAwayEmpty(s, capacity, pick);
  }

  lemma BoardPreservesInv(s: State, capacity: nat, k: nat, now: real)
    requires Inv(s, capacity) && k < |s.reserved| && s.queue > 0
    ensures Inv(Board(s, k, now), capacity)
  {
  }

  /** Departure moves the departing vessel from the dock to the trips. */
  lemma DepartKeepsPartition(s: State, now: real, crossingTime: real, disembarkDraws: seq<real>)
    requires WellFormed(s) && Partition(s) && |s.dock| > 0
    requires |disembarkDraws| == LoadOf(s, s.dock[Departing(s)])
    ensures Partition(Depart(s, now, crossingTime, disembarkDraws))
  {
    var r := Depart(s, now, crossingTime, disembarkDraws);
    var j := Departing(s);
    var v := s.dock[j];
    MultisetRemove(s.dock, j);
    NamesAppend(s.transit, Trip(v, IdleTime(crossingTime, disembarkDraws)));
    assert r.dock + Names(r.transit) == r.dock + Names(s.transit) + [v];
  }

  /** The departed vessel's name joins the trips; every name stays in the fleet. */
  lemma DepartKeepsWellFormed(s: State, now: real, crossingTime: real, disembarkDraws: seq<real>)
    requires WellFormed(s) && |s.dock| > 0
    requires |disembarkDraws| == LoadOf(s, s.dock[Departing(s)])
    ensures WellFormed(Depart(s, now, crossingTime, disembarkDraws))
  {
    var r := Depart(s, now, crossingTime, disembarkDraws);
    var v := s.dock[Departing(s)];
    NamesAppend(s.transit, Trip(v, IdleTime(crossingTime, disembarkDraws)));
  }

  /** The departed vessel is emptied and every other trip is untouched. */
  lemma DepartKeepsAwayEmpty(s: State, now: real, crossingTime: real, disembarkDraws: seq<real>)
    requires WellFormed(s) && AwayEmpty(s) && |s.dock| > 0
    requires |disembarkDraws| == LoadOf(s, s.dock[Departing(s)])
    ensures WellFormed(Depart(s, now, crossingTime, disembarkDraws))
    ensures AwayEmpty(Depart(s, now, crossingTime, disembarkDraws))
  {
    var r := Depart(s, now, crossingTime, disembarkDraws);
    var v := s.dock[Departing(s)];
    DepartKeepsWellFormed(s, now, crossingTime, disembarkDraws);
    NamesAppend(s.transit, Trip(v, IdleTime(crossingTime, disembarkDraws)));
    forall k | 0 <= k < |r.transit|
      ensures LoadOf(r, Names(r.transit)[k]) == 0
    {
      if k < |s.transit| {
        assert Names(r.transit)[k] == Names(s.transit)[k];
      }
    }
  }

  lemma DepartPreservesInv(s: State, capacity: nat, now: real, crossingTime: real, disembarkDraws: seq<real>)
    requires Inv(s, capacity) && |s.dock| > 0
    requires |disembarkDraws| == LoadOf(s, s.dock[Departing(s)])
    ensures Inv(Depart(s, now, crossingTime, disembarkDraws), capacity)
  {
    DepartKeepsPartition(s, now, crossingTime, disembarkDraws);
    DepartKeepsAwayEmpty(s, now, crossingTime, disembarkDraws);
  }

  lemma ReturnPreservesInv(s: State, capacity: nat, k: nat, now: real)
    requires Inv(s, capacity) && k < |s.transit|
    ensures Inv(ReturnVessel(s, k, now), capacity)
  {
    var r := ReturnVessel(s, k, now);
    var v := s.transit[k].vessel;
    NamesRemove(s.transit, k);
    MultisetRemove(Names(s.transit), k);
    assert r.dock + Names(r.transit) == s.dock + [v] + (Names(s.transit)[..k] + Names(s.transit)[k + 1..]);
    forall i | 0 <= i < |r.transit|
      ensures LoadOf(r, Names(r.transit)[i]) == 0
    {
      if i < k {
        assert Names(r.transit)[i] == Names(s.transit)[i];
      } else {
        assert Names(r.transit)[i] == Names(s.transit)[i + 1];
      }
    }
  }

  /** Every enabled step keeps the invariant. */
  lemma NextPreservesInv(s: State, capacity: nat, step: Step)
    requires Inv(s, capacity) && Enabled(s, capacity, step)
    ensures Inv(Next(s, capacity, step), capacity)
  {
    match step
    case VehicleArrives(now) => ArrivePreservesInv(s, capacity, now);
    case EmbarkStarts(pick) => ReservePreservesInv(s, capacity, pick);
    case VehicleBoards(k, now) => BoardPreservesInv(s, capacity, k, now);
    case VesselDeparts(now, crossing, draws) => DepartPreservesInv(s, capacity, now, crossing, draws);
    case VesselReturns(k, now) => ReturnPreservesInv(s, capacity, k, now);
  }

  /** Any run of enabled steps keeps the invariant and only appends to the log. */
  lemma {:induction false} RunPreservesInv(s: State, capacity: nat, steps: seq<Step>)
    requires Inv(s, capacity) && ValidRun(s, capacity, steps)
    ensures Inv(Run(s, capacity, steps), capacity)
    ensures s.log <= Run(s, capacity, steps).log
    decreases |steps|
  {
    if |steps| > 0 {
      var next := Next(s, capacity, steps[0]);
      NextPreservesInv(s, capacity, steps[0]);
      assert s.log <= next.log;
      RunPreservesInv(next, capacity, steps[1..]);
    }
  }
}
