# Ferry terminal state machine

A Dafny model of the ferry terminal that `SimScenario` simulates
(`src/entities/sim_scenario.py`). Vehicles arrive and wait in a queue. Each
arriving vehicle spawns an embark process. That process reserves a slot on an
at-dock vessel with free capacity and later takes the vehicle from the queue.
A departure process periodically takes the fullest at-dock vessel away and
empties it. A return process puts the vessel back after two crossings and
the disembark delays. Every step appends to an event log.

The model describes the terminal by five atomic steps over an immutable
`Scenario.State`. Each step covers one stretch of a process. Where that
stretch ends in a store `put` or `get`, the step also includes the counter
update and log entry that follow when the process resumes:

- `fleet`: every vessel object. Vessel i is named i; the source names it `str(i)`.
- `dock`: the vessel store's items, as names in store order (at dock).
- `transit`: the departed vessels whose return process has not fired yet (away).
- `queue`: the length of the vehicle store.
- `vehiclesTotal`: the arrival counter.
- `spawned`: embark processes created by an arrival that have not started.
- `reserved`: the vessel of each started embark process that holds a reservation and is waiting out its service time.
- `log`: the `events` list of the log.

`embark_vehicle` is split at its `yield` into two steps. `Reserve` scans,
picks a vessel and increments its load. `Board` takes a vehicle from the
queue and logs the boarding. `Board` requires a non-empty queue, because the
store's `get` completes only then. `Properties.BoardingNeverWaits` shows that
under the invariant the queue is never empty at that point. The scheduler that orders the steps is not
modelled. A run is any sequence of enabled steps (`Scenario.ValidRun`,
`Scenario.Run`). Times, the crossing time, the disembark draws and the index
`random.choice` returns are all inputs to the steps.

Modules: `Vessels` (records, selection rules), `Events` (log entries and
counts), `Peak` (the peak-window test), `Scenario` (state and steps),
`Invariants` (the invariant and its preservation), `Properties` (what holds
in every reachable state and what departure and return do).

Notes on the code's behaviour:

- Peak windows are closed at both ends (`start <= now <= end`, line 75).
- The vessel store is an ordered list. The filtered `get` at line 157 scans it in order, so a departure takes the first vessel with the maximum load. A return appends the vessel at the end.
- A departure that finds the dock empty blocks in the store's `get` until a vessel returns. Here that is the precondition `|dock| > 0` of `Depart`.

Any order of enabled steps is a run, so processes interleave at step
boundaries. For example, a vehicle can reserve a slot on a vessel that
departs before the vehicle boards. Its boarding entry then shows the vessel's
load at boarding time. Interleavings inside a step, between a store
operation and the log entry after it, are not modelled (see below).

## Model

| member | source | states |
|---|---|---|
| Vessels.Range | src/entities/sim_scenario.py:57-61 | the vessels are created under the names 0..n-1, in that order |
| Vessels.RangeCount | src/entities/sim_scenario.py:57-61 | each created name occurs exactly once, and no other name occurs |
| Vessels.Fleet | src/entities/sim_scenario.py:57-61 | vessel i is named i and starts with the load of a fresh vessel |
| Vessels.Eligible | src/entities/sim_scenario.py:107-112 | the candidate list holds exactly the at-dock vessels with load below capacity |
| Vessels.NoneEligible | src/entities/sim_scenario.py:107-114 | when every at-dock vessel is full, the candidate list is empty |
| Vessels.Max | src/entities/sim_scenario.py:157 | `max` returns a load present in the list that no load exceeds |
| Vessels.FirstIndexOf | src/entities/sim_scenario.py:157 | the filtered get stops at the first item the filter accepts |
| Vessels.Fullest | src/entities/sim_scenario.py:157 | the chosen position has the maximum load, and every position before it has a smaller load |
| Vessels.SumNonNegative | src/entities/sim_scenario.py:173 | non-negative disembark draws add up to a non-negative disembark time |
| Vessels.SumAppend | src/entities/sim_scenario.py:173 | one more draw adds exactly its value to the disembark time |
| Peak.InPeak | src/entities/sim_scenario.py:73-78 | the window loop finds a match iff some window has start <= now <= end |
| Peak.ArrivalMean | src/entities/sim_scenario.py:71-78 | the peak mean applies when some window covers now; otherwise the normal mean applies |
| Peak.EndPointsArePeak | src/entities/sim_scenario.py:75 | both end points of a window use the peak mean |
| Scenario.Init | src/entities/sim_scenario.py:51-61 | n vessels (none if n < 0), all at dock in name order; empty queue, counter, trips and log |
| Scenario.Chosen | src/entities/sim_scenario.py:117 | the picked vessel is at dock and has load below capacity |
| Scenario.ChosenCovers | src/entities/sim_scenario.py:107-117 | every at-dock vessel with a free slot is what some pick returns, so all outcomes of `random.choice` are covered |
| Scenario.Arrive | src/entities/sim_scenario.py:80-95 | one more vehicle queued and counted; the new entry's queue_size is the length after the put; one embark process spawned; vessels untouched |
| Scenario.Reserve | src/entities/sim_scenario.py:102-123 | with no free slot at dock, nothing changes but the process ends; otherwise only one at-dock vessel with a free slot gains exactly one reservation, before any delay; no other vessel changes |
| Scenario.Board | src/entities/sim_scenario.py:123-137 | one vehicle leaves the queue; the boarding entry carries the queue length after the get and the vessel's current load; vessels untouched |
| Scenario.Departing | src/entities/sim_scenario.py:157 | the departing position holds a maximum-load vessel, and every vessel before it is strictly emptier |
| Scenario.IdleTimeBounds | src/entities/sim_scenario.py:170-173 | with non-negative draws the vessel stays away at least two crossings, exactly two when it carried no vehicle, and each carried vehicle adds its own draw |
| Scenario.Depart | src/entities/sim_scenario.py:154-175 | the vessel leaves the dock; it is logged with its load before the reset; its load becomes 0; it travels for 2·crossing plus one draw per vehicle it carried; no other vessel changes |
| Scenario.ReturnVessel | src/entities/sim_scenario.py:182-194 | the return is logged with the current queue length; the vessel goes to the end of the dock and leaves transit |
| Invariants.AtDockXorAway | src/entities/sim_scenario.py:157-194 | under the partition, a name is at dock or away exactly when it is a fleet vessel, and never both |
| Invariants.PartitionCount | src/entities/sim_scenario.py:157-194 | at-dock count plus away count equals the fleet size |
| Invariants.InitEstablishesInv | src/entities/sim_scenario.py:51-61 | the constructed terminal satisfies the invariant when a fresh vessel is within capacity |
| Invariants.ArrivePreservesInv | src/entities/sim_scenario.py:80-95 | arrival adds one to the queue and to the logged arrivals, keeping queue = arrivals - boardings and a queued vehicle for every embark process |
| Invariants.ReservePreservesInv | src/entities/sim_scenario.py:107-120 | a reservation keeps every load within capacity and keeps away vessels empty |
| Invariants.ReserveKeepsAwayEmpty | src/entities/sim_scenario.py:107-120 | the reserved vessel is at dock, so no away vessel gains a reservation |
| Invariants.BoardPreservesInv | src/entities/sim_scenario.py:126-137 | boarding removes one vehicle and logs one boarding, keeping queue = arrivals - boardings and the vehicles owed to the remaining embark processes |
| Invariants.DepartKeepsPartition | src/entities/sim_scenario.py:157-175 | departure moves exactly the departing vessel from the dock to the trips |
| Invariants.DepartKeepsAwayEmpty | src/entities/sim_scenario.py:170-175 | the departed vessel is away with load 0, and the other trips are untouched |
| Invariants.DepartPreservesInv | src/entities/sim_scenario.py:157-175 | departure keeps the at-dock/away partition and leaves the departed vessel empty |
| Invariants.ReturnPreservesInv | src/entities/sim_scenario.py:182-194 | return moves the vessel from the trips back to the dock, keeping the partition, the loads and the empty away vessels |
| Invariants.NextPreservesInv | src/entities/sim_scenario.py:196-203 | every enabled step keeps the invariant |
| Invariants.RunPreservesInv | src/entities/sim_scenario.py:196-203 | any run of enabled steps keeps the invariant and only appends to the log |
| Properties.InvIsSound | src/entities/sim_scenario.py:57-194 | the invariant gives: loads within capacity, each vessel at dock xor away, counts summing to the fleet, queue = arrivals - boardings |
| Properties.ReachableStates | src/entities/sim_scenario.py:196-203 | every state reachable from construction has exactly the created vessels and keeps those guarantees |
| Properties.RunKeepsFleetSize | src/entities/sim_scenario.py:57-61 | no step creates or destroys a vessel |
| Properties.BoardingNeverWaits | src/entities/sim_scenario.py:126 | an embark process with a reservation always finds a vehicle in the queue |
| Properties.FullDockEmbarkChangesNothing | src/entities/sim_scenario.py:114 | with every at-dock vessel full, any pick is valid and the attempt changes only the count of unstarted processes |
| Properties.EmbarkThenBoard | src/entities/sim_scenario.py:107-137 | a reservation followed at once by its boarding logs an at-dock vessel that had a free slot, now one fuller and within capacity; the queue is one shorter |
| Properties.DepartureTakesFullest | src/entities/sim_scenario.py:157-175 | the logged vessel has the maximum load at dock and is the first such; it leaves the dock entirely, is away and empty; the logged load counts its disembark draws |
| Properties.DepartThenReturn | src/entities/sim_scenario.py:157-194 | departure followed by that trip's return restores the same vessels at dock, the departed one last with load 0; the other trips are unchanged; two log entries name the vessel |
| Properties.ReturnedVesselDocksEmpty | src/entities/sim_scenario.py:182-194 | the returning vessel was not at dock; it comes back last in the dock with load 0 and is no longer away |

## Left out

- The simpy engine (`Environment`, `timeout`, `Store`, `FilterStore`, `env.run`) is third-party code. Which enabled step runs next, and when, is left open. So is the horizon `simulation_time`: a run is any finite sequence of enabled steps.
- A store `put` or `get` that the process yields on is merged with the counter update and log entry that follow it (lines 82-95, 126-137, 157-168). The model does not cover another event at the same instant running in between. In the source, such an event can make the logged `queue_size` differ from what the model logs.
- The clock is an input to each step. The model does not prove that log times are ordered, because that ordering comes from the scheduler.
- Random sampling (`expovariate`, `normalvariate`, `choice`) is floating-point and random. The draws and the chosen index are inputs. The service delay of an embark process is only the gap between its `Reserve` and `Board` steps.
- Scenario.Depart: requires a non-empty dock. The source instead waits inside the store until a return puts a vessel back. It then departs with the time it noted before waiting.
- A negative idle time is not modelled. A normally distributed crossing time can produce one, and then simpy would reject the return process's timeout.
- The derived arrival means (lines 26-43) are float division over configuration values. `ArrivalMean` takes both means as inputs.
- `initial_parameters` and the empty `metrics` of the log are passed through unchanged and are not modelled.
- Vessel names are numbers, not the strings `str(i)`. `src/entities/vessel.py` is not part of this model. A fresh vessel's load is the parameter `initialLoad` of `Init`, and the invariant needs it to be within capacity.
- Configuration loading and the HTTP layer are not modelled.
