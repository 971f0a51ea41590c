/** What the terminal guarantees about its vessels, its queue and its log in
    every state a run from construction reaches, and what the departure and
    return steps do to the vessel they move. */
module Properties {
  import opened Vessels
  import opened Events
  import opened Scenario
  import opened Invariants

  /** A state some run of enabled steps reaches from the constructed terminal. */
  predicate Reaches(vesselsNumber: int, initialLoad: nat, capacity: nat, steps: seq<Step>)
  {
    ValidRun(Init(vesselsNumber, initialLoad), capacity, steps)
  }

  /** What the terminal promises of a state: no vessel is over capacity; each
      vessel of the fleet is at dock or away and never both, and nothing else
      is, so the two counts add up to the size of the fleet; the queue holds
      exactly the vehicles that arrived and have not boarded. */
  ghost predicate Sound(s: State, capacity: nat)
  {
    && (forall v :: 0 <= v < |s.fleet| ==> s.fleet[v].usedCapacity <= capacity)
    && (forall v: nat :: v < |s.fleet| <==> (v in s.dock || v in Names(s.transit)))
    && (forall v: nat :: !(v in s.dock && v in Names(s.transit)))
    && |s.dock| + |s.transit| == |s.fleet|
    && s.vehiclesTotal == Arrivals(s.log)
    && s.queue == Arrivals(s.log) - Boardings(s.log)
  }

  /** The invariant delivers the promises. */
  lemma InvIsSound(s: State, capacity: nat)
    requires Inv(s, capacity)
    ensures Sound(s, capacity)
  {
    forall v: nat
      ensures v < |s.fleet| <==> (v in s.dock || v in Names(s.transit))
      ensures !(v in s.dock && v in Names(s.transit))
    {
      AtDockXorAway(s, v);
    }
    PartitionCount(s);
  }

  /** Every state a run reaches from construction keeps the promises, about
      exactly the vessels created at construction, and its log began empty. */
  lemma ReachableStates(vesselsNumber: int, initialLoad: nat, capacity: nat, steps: seq<Step>)
    requires initialLoad <= capacity
    requires Reaches(vesselsNumber, initialLoad, capacity, steps)
    ensures var s := Run(Init(vesselsNumber, initialLoad), capacity, steps);
      && |s.fleet| == (if vesselsNumber < 0 then 0 else vesselsNumber)
      && Sound(s, capacity)
  {
    var s0 := Init(vesselsNumber, initialLoad);
    InitEstablishesInv(vesselsNumber, initialLoad, capacity);
    RunPreservesInv(s0, capacity, steps);
    RunKeepsFleetSize(s0, capacity, steps);
    InvIsSound(Run(s0, capacity, steps), capacity);
  }

  /** Steps never create or destroy vessels. */
  lemma {:induction false} RunKeepsFleetSize(s: State, capacity: nat, steps: seq<Step>)
    requires ValidRun(s, capacity, steps)
    ensures |Run(s, capacity, steps).fleet| == |s.fleet|
    decreases |steps|
  {
    if |steps| > 0 {
      RunKeepsFleetSize(Next(s, capacity, steps[0]), capacity, steps[1..]);
    }
  }

  /** An embark process holding a reservation never waits for a vehicle: the
      queue has one for it whenever its service delay ends. */
  lemma BoardingNeverWaits(s: State, capacity: nat, k: nat, now: real)
    requires Inv(s, capacity) && k < |s.reserved|
    ensures Enabled(s, capacity, VehicleBoards(k, now))
  {
  }

  /** When every vessel at dock is full, an embark attempt boards nothing:
      vessels, queue, reservations and log are as they were. */
  lemma FullDockEmbarkChangesNothing(s: State, capacity: nat, pick: nat)
    requires WellFormed(s) && s.spawned > 0
    requires forall i :: 0 <= i < |s.dock| ==> LoadOf(s, s.dock[i]) >= capacity
    ensures ValidPick(s, capacity, pick)
    ensures Reserve(s, capacity, pick) == s.(spawned := s.spawned - 1)
  {
    NoneEligible(s.fleet, s.dock, capacity);
  }

  /** An embark attempt that finds a free slot and boards before anything else
      happens: the vehicle boards a vessel that was at dock with a free slot,
      the log shows that vessel one fuller and still within capacity, and the
      queue is one shorter. */
  lemma EmbarkThenBoard(s: State, capacity: nat, pick: nat, now: real)
    requires Inv(s, capacity) && s.spawned > 0 && ValidPick(s, capacity, pick)
    requires exists i :: 0 <= i < |s.dock| && LoadOf(s, s.dock[i]) < capacity
    ensures var m := Reserve(s, capacity, pick);
      && |m.reserved| == |s.reserved| + 1 && m.queue > 0
      && var r := Board(m, |s.reserved|, now);
         var e := r.log[|r.log| - 1];
         && r.log[..|r.log| - 1] == s.log
         && e.Boarding? && e.t == now
         && e.vesselName in s.dock && LoadOf(s, e.vesselName) < capacity
         && e.vesselUsedCapacity == LoadOf(s, e.vesselName) + 1 <= capacity
         && r.queue == s.queue - 1 && e.queueSize == r.queue
         && r.reserved == s.reserved && r.spawned == s.spawned - 1
         && Boardings(r.log) == Boardings(s.log) + 1
  {
  }

  /** The departure takes a vessel no other at-dock vessel is fuller than, and
      ahead of which every vessel is strictly emptier; it logs that vessel
      with its load before the reset; the vessel leaves the dock altogether,
      is away with no reservations, and stays away for two crossings plus one
      disembark draw per vehicle it carried. */
  lemma DepartureTakesFullest(s: State, capacity: nat, now: real, crossingTime: real, disembarkDraws: seq<real>)
    requires Inv(s, capacity) && |s.dock| > 0
    requires |disembarkDraws| == LoadOf(s, s.dock[Departing(s)])
    ensures var r := Depart(s, now, crossingTime, disembarkDraws);
      var e := r.log[|r.log| - 1];
      && r.log[..|r.log| - 1] == s.log
      && e.Departure? && e.t == now && e.queueSize == s.queue
      && e.vesselName in s.dock
      && e.vesselUsedCapacity == LoadOf(s, e.vesselName)
      && (forall i :: 0 <= i < |s.dock| ==> LoadOf(s, s.dock[i]) <= e.vesselUsedCapacity)
      && (exists j :: && 0 <= j < |s.dock| && s.dock[j] == e.vesselName
                      && (forall i :: 0 <= i < j ==> LoadOf(s, s.dock[i]) < e.vesselUsedCapacity)
                      && r.dock == s.dock[..j] + s.dock[j + 1..])
      && e.vesselName !in r.dock && |r.dock| == |s.dock| - 1
      && e.vesselName in Names(r.transit)
      && LoadOf(r, e.vesselName) == 0
      && r.transit[|r.transit| - 1].idleTime == 2.0 * crossingTime + Sum(disembarkDraws)
      && |disembarkDraws| == e.vesselUsedCapacity
  {
    var r := Depart(s, now, crossingTime, disembarkDraws);
    var j := Departing(s);
    var v := s.dock[j];
    assert r.log == s.log + [Departure(now, v, s.queue, LoadOf(s, v))];
    assert r.dock == s.dock[..j] + s.dock[j + 1..];
    MultisetRemove(s.dock, j);
    RangeCount(|s.fleet|, v);
    assert multiset(s.dock + Names(s.transit))[v] == multiset(s.dock)[v] + multiset(Names(s.transit))[v];
    assert multiset(r.dock)[v] == 0;
    NamesAppend(s.transit, Trip(v, IdleTime(crossingTime, disembarkDraws)));
  }

  /** The returning vessel was away, comes back at the end of the dock, is no
      longer away, and carries no reservations, so the next embark attempt
      sees all of its slots free. */
  lemma ReturnedVesselDocksEmpty(s: State, capacity: nat, k: nat, now: real)
    requires Inv(s, capacity) && k < |s.transit|
    ensures var r := ReturnVessel(s, k, now); var v := s.transit[k].vessel;
      && v !in s.dock
      && r.dock[|r.dock| - 1] == v
      && v !in Names(r.transit)
      && v < |r.fleet| && LoadOf(r, v) == 0
      && |r.dock| + |r.transit| == |s.dock| + |s.transit|
  {
    var r := ReturnVessel(s, k, now);
    var v := s.transit[k].vessel;
    assert Names(s.transit)[k] == v;
    AtDockXorAway(s, v);
    ReturnPreservesInv(s, capacity, k, now);
    AtDockXorAway(r, v);
  }

  /** A departure followed by the return of that same trip puts back the
      vessel that left: the dock holds the same vessels as before (the
      returned one now last), the other trips are as before, and the log
      gains a departure and a return naming the same vessel. */
  lemma DepartThenReturn(s: State, departAt: real, crossingTime: real,
                         disembarkDraws: seq<real>, returnAt: real)
    requires WellFormed(s) && |s.dock| > 0
    requires |disembarkDraws| == LoadOf(s, s.dock[Departing(s)])
    ensures var m := Depart(s, departAt, crossingTime, disembarkDraws);
      && WellFormed(m) && |m.transit| == |s.transit| + 1
      && var r := ReturnVessel(m, |s.transit|, returnAt);
         var v := s.dock[Departing(s)];
         && multiset(r.dock) == multiset(s.dock)
         && r.dock[|r.dock| - 1] == v
         && r.transit == s.transit
         && |r.log| == |s.log| + 2 && r.log[..|s.log|] == s.log
         && r.log[|s.log|].Departure? && r.log[|s.log|].vesselName == v
         && r.log[|s.log| + 1].Return? && r.log[|s.log| + 1].vesselName == v
         && |r.fleet| == |s.fleet| && LoadOf(r, v) == 0
  {
    var j := Departing(s);
    var v := s.dock[j];
    var m := Depart(s, departAt, crossingTime, disembarkDraws);
    DepartKeepsWellFormed(s, departAt, crossingTime, disembarkDraws);
    var trip := Trip(v, IdleTime(crossingTime, disembarkDraws));
    assert m.transit == s.transit + [trip];
    assert m.transit[|s.transit|].vessel == v;
    var r := ReturnVessel(m, |s.transit|, returnAt);
    assert r.dock == s.dock[..j] + s.dock[j + 1..] + [v];
    MultisetRemove(s.dock, j);
    assert r.transit == s.transit;
    assert r.log == s.log + [Departure(departAt, v, s.queue, LoadOf(s, v)), Return(returnAt, v, s.queue)];
  }
}
