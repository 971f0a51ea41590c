/** The event log the terminal appends to. */
module Events {

  /** One entry of `log_events["events"]`. `t` is the simulation time the
      entry records; `queueSize` is the number of vehicles waiting in the
      queue when the entry was written. */
  datatype Event =
    | Arrival(t: real, queueSize: nat)
    | Boarding(t: real, vesselName: nat, queueSize: nat, vesselUsedCapacity: nat)
    | Departure(t: real, vesselName: nat, queueSize: nat, vesselUsedCapacity: nat)
    | Return(t: real, vesselName: nat, queueSize: nat)

  /** The number of arrival entries in a log. */
  function Arrivals(log: seq<Event>): nat
  {
    if |log| == 0 then 0
    else Arrivals(log[..|log| - 1]) + (if log[|log| - 1].Arrival? then 1 else 0)
  }

  /** The number of boarding entries in a log. */
  function Boardings(log: seq<Event>): nat
  {
    if |log| == 0 then 0
    else Boardings(log[..|log| - 1]) + (if log[|log| - 1].Boarding? then 1 else 0)
  }
}
